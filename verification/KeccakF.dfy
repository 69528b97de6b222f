/** The permutation of Keccak (src/keccak.c): the step mappings of section 3.2 of FIPS 202 and the fast form,
    which complements some lanes, renames lanes in place of moving them, and unrolls eight rounds. */
module KeccakF {
  import opened Arith

  /** A lane of 64 bits, least significant first. */
  type Lane = s: seq<bool> | |s| == 64 witness seq(64, _ => false)

  function Xor(a: Lane, b: Lane): (r: Lane)
  {
    seq(64, i requires 0 <= i < 64 => a[i] != b[i])
  }

  function And(a: Lane, b: Lane): (r: Lane)
  {
    seq(64, i requires 0 <= i < 64 => a[i] && b[i])
  }

  function Or(a: Lane, b: Lane): (r: Lane)
  {
    seq(64, i requires 0 <= i < 64 => a[i] || b[i])
  }

  function Not(a: Lane): (r: Lane)
  {
    seq(64, i requires 0 <= i < 64 => !a[i])
  }

  /** Rotation to the left: bit `i` goes to bit `i + n`. */
  function Rot(a: Lane, n: nat): (r: Lane)
    requires n < 64
  {
    a[64 - n..] + a[..64 - n]
  }

  function Word(n: nat): (r: Lane)
  {
    seq(64, i requires 0 <= i < 64 => (n / Pow(2, i)) % 2 == 1)
  }

  /** The 25 lanes, `axy` being lane (x, y), in the order of the macro parameters. */
  datatype Lanes = Lanes(a00: Lane, a01: Lane, a02: Lane, a03: Lane, a04: Lane,
                         a10: Lane, a11: Lane, a12: Lane, a13: Lane, a14: Lane,
                         a20: Lane, a21: Lane, a22: Lane, a23: Lane, a24: Lane,
                         a30: Lane, a31: Lane, a32: Lane, a33: Lane, a34: Lane,
                         a40: Lane, a41: Lane, a42: Lane, a43: Lane, a44: Lane)

  // ---------------------------------------------------------------- the step mappings

  function At(a: Lanes, x: nat, y: nat): (r: Lane)
    requires x < 5 && y < 5
  {
    if x == 0 then Pick(y, a.a00, a.a01, a.a02, a.a03, a.a04)
    else if x == 1 then Pick(y, a.a10, a.a11, a.a12, a.a13, a.a14)
    else if x == 2 then Pick(y, a.a20, a.a21, a.a22, a.a23, a.a24)
    else if x == 3 then Pick(y, a.a30, a.a31, a.a32, a.a33, a.a34)
    else Pick(y, a.a40, a.a41, a.a42, a.a43, a.a44)
  }

  function Pick(y: nat, a0: Lane, a1: Lane, a2: Lane, a3: Lane, a4: Lane): (r: Lane)
    requires y < 5
  {
    if y == 0 then a0 else if y == 1 then a1 else if y == 2 then a2 else if y == 3 then a3 else a4
  }

  /** The state whose lane (x, y) is `f(x, y)`. */
  function Tabulate(f: (nat, nat) -> Lane): (a: Lanes)
  {
    Lanes(f(0, 0), f(0, 1), f(0, 2), f(0, 3), f(0, 4), f(1, 0), f(1, 1), f(1, 2), f(1, 3), f(1, 4),
          f(2, 0), f(2, 1), f(2, 2), f(2, 3), f(2, 4), f(3, 0), f(3, 1), f(3, 2), f(3, 3), f(3, 4),
          f(4, 0), f(4, 1), f(4, 2), f(4, 3), f(4, 4))
  }

  function Parity(a: Lanes, x: nat): (c: Lane)
    requires x < 5
  {
    Xor(Xor(Xor(Xor(At(a, x, 0), At(a, x, 1)), At(a, x, 2)), At(a, x, 3)), At(a, x, 4))
  }

  function Spread(a: Lanes, x: nat): (d: Lane)
    requires x < 5
  {
    Xor(Parity(a, (x + 4) % 5), Rot(Parity(a, (x + 1) % 5), 1))
  }

  /** Section 3.2.1: every lane is xored with the parities of two neighbouring columns. */
  function Theta(a: Lanes): (r: Lanes)
  {
    Tabulate((x: nat, y: nat) => Xor(At(a, x % 5, y % 5), Spread(a, x % 5)))
  }

  /** The lane reached after `t` steps of section 3.2.2, starting from (1, 0). */
  function Walk(t: nat): (p: (nat, nat))
    ensures p.0 < 5 && p.1 < 5
  {
    if t == 0 then (1, 0) else var (x, y) := Walk(t - 1); (y, (2 * x + 3 * y) % 5)
  }

  /** The rotation of lane (x, y). */
  function Offset(x: nat, y: nat): (n: nat)
    requires x < 5 && y < 5
    ensures n < 64
  {
    if x == 0 then [0, 36, 3, 41, 18][y]
    else if x == 1 then [1, 44, 10, 45, 2][y]
    else if x == 2 then [62, 6, 43, 15, 61][y]
    else if x == 3 then [28, 55, 25, 21, 56][y]
    else [27, 20, 39, 8, 14][y]
  }

  /** Section 3.2.2: every lane is rotated. */
  function Rho(a: Lanes): (r: Lanes)
  {
    Tabulate((x: nat, y: nat) => Rot(At(a, x % 5, y % 5), Offset(x % 5, y % 5)))
  }

  /** Section 3.2.3: the lanes change places. */
  function Pi(a: Lanes): (r: Lanes)
  {
    Tabulate((x: nat, y: nat) => At(a, (x + 3 * y) % 5, x % 5))
  }

  function ChiLane(a: Lane, b: Lane, c: Lane): (r: Lane)
  {
    Xor(a, And(Not(b), c))
  }

  /** Section 3.2.4: the only non-linear step. */
  function Chi(a: Lanes): (r: Lanes)
  {
    Tabulate((x: nat, y: nat) => ChiLane(At(a, x % 5, y % 5), At(a, (x + 1) % 5, y % 5), At(a, (x + 2) % 5, y % 5)))
  }

  /** Section 3.2.5: the round constant enters lane (0, 0). */
  function Iota(a: Lanes, k: Lane): (r: Lanes)
  {
    a.(a00 := Xor(a.a00, k))
  }

  function Round(a: Lanes, k: Lane): (r: Lanes)
  {
    Iota(Chi(Pi(Rho(Theta(a)))), k)
  }

  /** The shift register of section 3.2.5. */
  datatype Register = Register(r0: bool, r1: bool, r2: bool, r3: bool, r4: bool, r5: bool, r6: bool, r7: bool)

  function Shift(r: Register): (s: Register)
  {
    Register(r.r7, r.r0, r.r1, r.r2, r.r3 != r.r7, r.r4 != r.r7, r.r5 != r.r7, r.r6)
  }

  /** The register after `t` steps. */
  function Shifted(t: nat): (r: Register)
  {
    if t == 0 then Register(true, false, false, false, false, false, false, false) else Shift(Shifted(t - 1))
  }

  function If(b: bool, n: nat): (r: nat)
  {
    if b then n else 0
  }

  /** The constant of round `i`: seven outputs of the register at the bits one below a power of two. */
  function RoundConstant(i: nat): (k: nat)
  {
    If(Shifted(7 * i).r0, 1) + If(Shifted(7 * i + 1).r0, 2) + If(Shifted(7 * i + 2).r0, 8) +
    If(Shifted(7 * i + 3).r0, 0x80) + If(Shifted(7 * i + 4).r0, 0x8000) + If(Shifted(7 * i + 5).r0, 0x8000_0000) +
    If(Shifted(7 * i + 6).r0, 0x8000_0000_0000_0000)
  }

  /** The first `n` rounds of Keccak-f[1600]. */
  function Rounds(a: Lanes, n: nat): (r: Lanes)
    requires n <= 24
  {
    if n == 0 then a else Round(Rounds(a, n - 1), Word(RoundConstant(n - 1)))
  }

  const ROUNDS: nat := 24

  function Permute(a: Lanes): (r: Lanes)
  {
    Rounds(a, ROUNDS)
  }

  // ---------------------------------------------------------------- the fast forms

  /** The table of the code. */
  const RC: seq<nat> := [
    0x0000000000000001, 0x0000000000008082, 0x800000000000808A, 0x8000000080008000,
    0x000000000000808B, 0x0000000080000001, 0x8000000080008081, 0x8000000000008009,
    0x000000000000008A, 0x0000000000000088, 0x0000000080008009, 0x000000008000000A,
    0x000000008000808B, 0x800000000000008B, 0x8000000000008089, 0x8000000000008003,
    0x8000000000008002, 0x8000000000000080, 0x000000000000800A, 0x800000008000000A,
    0x8000000080008081, 0x8000000000008080, 0x0000000080000001, 0x8000000080008008
  ]

  /** `TH_ELT`: the parity of one column and the rotated parity of another. */
  function ThetaElement(c0: Lane, c1: Lane, c2: Lane, c3: Lane, c4: Lane,
                        d0: Lane, d1: Lane, d2: Lane, d3: Lane, d4: Lane): (t: Lane)
  {
    Xor(Xor(Rot(Xor(Xor(Xor(d0, d1), d4), Xor(d2, d3)), 1), c4), Xor(Xor(c0, c1), Xor(c2, c3)))
  }

  /** `THETA`. */
  function FastTheta(b: Lanes): (r: Lanes)
  {
    var t0 := ThetaElement(b.a40, b.a41, b.a42, b.a43, b.a44,
                           b.a10, b.a11, b.a12, b.a13, b.a14);
    var t1 := ThetaElement(b.a00, b.a01, b.a02, b.a03, b.a04,
                           b.a20, b.a21, b.a22, b.a23, b.a24);
    var t2 := ThetaElement(b.a10, b.a11, b.a12, b.a13, b.a14,
                           b.a30, b.a31, b.a32, b.a33, b.a34);
    var t3 := ThetaElement(b.a20, b.a21, b.a22, b.a23, b.a24,
                           b.a40, b.a41, b.a42, b.a43, b.a44);
    var t4 := ThetaElement(b.a30, b.a31, b.a32, b.a33, b.a34,
                           b.a00, b.a01, b.a02, b.a03, b.a04);
    Lanes(Xor(b.a00, t0), Xor(b.a01, t0), Xor(b.a02, t0), Xor(b.a03, t0), Xor(b.a04, t0),
          Xor(b.a10, t1), Xor(b.a11, t1), Xor(b.a12, t1), Xor(b.a13, t1), Xor(b.a14, t1),
          Xor(b.a20, t2), Xor(b.a21, t2), Xor(b.a22, t2), Xor(b.a23, t2), Xor(b.a24, t2),
          Xor(b.a30, t3), Xor(b.a31, t3), Xor(b.a32, t3), Xor(b.a33, t3), Xor(b.a34, t3),
          Xor(b.a40, t4), Xor(b.a41, t4), Xor(b.a42, t4), Xor(b.a43, t4), Xor(b.a44, t4))
  }

  /** `RHO`. */
  function FastRho(b: Lanes): (r: Lanes)
  {
    Lanes(b.a00, Rot(b.a01, 36), Rot(b.a02, 3), Rot(b.a03, 41), Rot(b.a04, 18),
          Rot(b.a10, 1), Rot(b.a11, 44), Rot(b.a12, 10), Rot(b.a13, 45), Rot(b.a14, 2),
          Rot(b.a20, 62), Rot(b.a21, 6), Rot(b.a22, 43), Rot(b.a23, 15), Rot(b.a24, 61),
          Rot(b.a30, 28), Rot(b.a31, 55), Rot(b.a32, 25), Rot(b.a33, 21), Rot(b.a34, 56),
          Rot(b.a40, 27), Rot(b.a41, 20), Rot(b.a42, 39), Rot(b.a43, 8), Rot(b.a44, 14))
  }

  datatype Row = Row(c0: Lane, c1: Lane, c2: Lane, c3: Lane, c4: Lane)

  function KhiRow0(b0: Lane, b1: Lane, b2: Lane, b3: Lane, b4: Lane): (r: Row)
  {
    var nn := Not(b2);
    Row(Xor(b0, Or(b1, b2)), Xor(b1, Or(nn, b3)), Xor(b2, And(b3, b4)), Xor(b3, Or(b4, b0)), Xor(b4, And(b0, b1)))
  }

  function KhiRow1(b0: Lane, b1: Lane, b2: Lane, b3: Lane, b4: Lane): (r: Row)
  {
    var nn := Not(b4);
    Row(Xor(b0, Or(b1, b2)), Xor(b1, And(b2, b3)), Xor(b2, Or(b3, nn)), Xor(b3, Or(b4, b0)), Xor(b4, And(b0, b1)))
  }

  function KhiRow2(b0: Lane, b1: Lane, b2: Lane, b3: Lane, b4: Lane): (r: Row)
  {
    var nn := Not(b3);
    Row(Xor(b0, Or(b1, b2)), Xor(b1, And(b2, b3)), Xor(b2, And(nn, b4)), Xor(nn, Or(b4, b0)), Xor(b4, And(b0, b1)))
  }

  function KhiRow3(b0: Lane, b1: Lane, b2: Lane, b3: Lane, b4: Lane): (r: Row)
  {
    var nn := Not(b3);
    Row(Xor(b0, And(b1, b2)), Xor(b1, Or(b2, b3)), Xor(b2, Or(nn, b4)), Xor(nn, And(b4, b0)), Xor(b4, Or(b0, b1)))
  }

  function KhiRow4(b0: Lane, b1: Lane, b2: Lane, b3: Lane, b4: Lane): (r: Row)
  {
    var nn := Not(b1);
    Row(Xor(b0, And(nn, b2)), Xor(nn, Or(b2, b3)), Xor(b2, And(b3, b4)), Xor(b3, Or(b4, b0)), Xor(b4, And(b0, b1)))
  }

  /** `KHI`: row by row, with the complements its input and output masks call for. */
  function FastKhi(b: Lanes): (r: Lanes)
  {
    var r0 := KhiRow0(b.a00, b.a10, b.a20, b.a30, b.a40);
    var r1 := KhiRow1(b.a01, b.a11, b.a21, b.a31, b.a41);
    var r2 := KhiRow2(b.a02, b.a12, b.a22, b.a32, b.a42);
    var r3 := KhiRow3(b.a03, b.a13, b.a23, b.a33, b.a43);
    var r4 := KhiRow4(b.a04, b.a14, b.a24, b.a34, b.a44);
    Lanes(r0.c0, r1.c0, r2.c0, r3.c0, r4.c0, r0.c1, r1.c1, r2.c1, r3.c1, r4.c1,
          r0.c2, r1.c2, r2.c2, r3.c2, r4.c2, r0.c3, r1.c3, r2.c3, r3.c3, r4.c3,
          r0.c4, r1.c4, r2.c4, r3.c4, r4.c4)
  }

  // ---------------------------------------------------------------- complemented lanes

  /** The stored form of a state between rounds: six lanes complemented. */
  function Masked(a: Lanes): (r: Lanes)
  {
    Lanes(a.a00, a.a01, a.a02, a.a03, Not(a.a04),
          Not(a.a10), a.a11, a.a12, a.a13, a.a14,
          Not(a.a20), a.a21, Not(a.a22), Not(a.a23), a.a24,
          a.a30, Not(a.a31), a.a32, a.a33, a.a34,
          a.a40, a.a41, a.a42, a.a43, a.a44)
  }

  /** The lanes complemented after theta, before the lanes change places. */
  function SpreadMask(a: Lanes): (r: Lanes)
  {
    Lanes(Not(a.a00), Not(a.a01), Not(a.a02), Not(a.a03), a.a04,
          Not(a.a10), a.a11, a.a12, a.a13, a.a14,
          Not(a.a20), a.a21, Not(a.a22), Not(a.a23), a.a24,
          Not(a.a30), a.a31, Not(a.a32), Not(a.a33), Not(a.a34),
          a.a40, a.a41, a.a42, a.a43, a.a44)
  }

  /** The lanes complemented where chi starts. */
  function ChiMask(a: Lanes): (r: Lanes)
  {
    Lanes(Not(a.a00), Not(a.a01), Not(a.a02), a.a03, Not(a.a04),
          a.a10, a.a11, a.a12, Not(a.a13), a.a14,
          Not(a.a20), Not(a.a21), Not(a.a22), a.a23, a.a24,
          Not(a.a30), a.a31, a.a32, Not(a.a33), Not(a.a34),
          a.a40, a.a41, a.a42, Not(a.a43), a.a44)
  }

  lemma NotNot(a: Lane)
    ensures Not(Not(a)) == a
  {
  }

  lemma XorNot(a: Lane, b: Lane)
    ensures Xor(Not(a), b) == Not(Xor(a, b)) && Xor(a, Not(b)) == Not(Xor(a, b)) && Xor(Not(a), Not(b)) == Xor(a, b)
  {
  }

  lemma RotNot(a: Lane, n: nat)
    requires n < 64
    ensures Rot(Not(a), n) == Not(Rot(a, n))
  {
  }

  lemma RotNone(a: Lane)
    ensures Rot(a, 0) == a
  {
  }

  lemma MaskedTwice(a: Lanes)
    ensures Masked(Masked(a)) == a
  {
    hide Not;
    NotNot(a.a04);
    NotNot(a.a10);
    NotNot(a.a20);
    NotNot(a.a22);
    NotNot(a.a23);
    NotNot(a.a31);
  }

  // ---------------------------------------------------------------- theta

  lemma ThetaShape(a: Lanes)
    ensures Theta(a) == Lanes(Xor(a.a00, Spread(a, 0)), Xor(a.a01, Spread(a, 0)), Xor(a.a02, Spread(a, 0)),
                              Xor(a.a03, Spread(a, 0)), Xor(a.a04, Spread(a, 0)),
                              Xor(a.a10, Spread(a, 1)), Xor(a.a11, Spread(a, 1)), Xor(a.a12, Spread(a, 1)),
                              Xor(a.a13, Spread(a, 1)), Xor(a.a14, Spread(a, 1)),
                              Xor(a.a20, Spread(a, 2)), Xor(a.a21, Spread(a, 2)), Xor(a.a22, Spread(a, 2)),
                              Xor(a.a23, Spread(a, 2)), Xor(a.a24, Spread(a, 2)),
                              Xor(a.a30, Spread(a, 3)), Xor(a.a31, Spread(a, 3)), Xor(a.a32, Spread(a, 3)),
                              Xor(a.a33, Spread(a, 3)), Xor(a.a34, Spread(a, 3)),
                              Xor(a.a40, Spread(a, 4)), Xor(a.a41, Spread(a, 4)), Xor(a.a42, Spread(a, 4)),
                              Xor(a.a43, Spread(a, 4)), Xor(a.a44, Spread(a, 4)))
  {
    hide Xor, Spread;
  }

  lemma ElementIsSpread(c0: Lane, c1: Lane, c2: Lane, c3: Lane, c4: Lane,
                        d0: Lane, d1: Lane, d2: Lane, d3: Lane, d4: Lane)
    ensures ThetaElement(c0, c1, c2, c3, c4, d0, d1, d2, d3, d4) ==
            Xor(Xor(Xor(Xor(Xor(c0, c1), c2), c3), c4), Rot(Xor(Xor(Xor(Xor(d0, d1), d2), d3), d4), 1))
  {
    hide Rot;
    assert Xor(Xor(Xor(d0, d1), d4), Xor(d2, d3)) == Xor(Xor(Xor(Xor(d0, d1), d2), d3), d4);
    var r := Rot(Xor(Xor(Xor(Xor(d0, d1), d2), d3), d4), 1);
    assert Xor(Xor(r, c4), Xor(Xor(c0, c1), Xor(c2, c3))) == Xor(Xor(Xor(Xor(Xor(c0, c1), c2), c3), c4), r);
  }

  lemma FastThetaIsTheta(b: Lanes)
    ensures FastTheta(b) == Theta(b)
  {
    hide Theta, Rot, ThetaElement, Xor;
    ThetaShape(b);
    ElementIsSpread(b.a40, b.a41, b.a42, b.a43, b.a44, b.a10, b.a11, b.a12, b.a13, b.a14);
    ElementIsSpread(b.a00, b.a01, b.a02, b.a03, b.a04, b.a20, b.a21, b.a22, b.a23, b.a24);
    ElementIsSpread(b.a10, b.a11, b.a12, b.a13, b.a14, b.a30, b.a31, b.a32, b.a33, b.a34);
    ElementIsSpread(b.a20, b.a21, b.a22, b.a23, b.a24, b.a40, b.a41, b.a42, b.a43, b.a44);
    ElementIsSpread(b.a30, b.a31, b.a32, b.a33, b.a34, b.a00, b.a01, b.a02, b.a03, b.a04);
  }

  lemma ParityMasked(a: Lanes)
    ensures Parity(Masked(a), 0) == Not(Parity(a, 0)) && Parity(Masked(a), 1) == Not(Parity(a, 1))
    ensures Parity(Masked(a), 2) == Not(Parity(a, 2)) && Parity(Masked(a), 3) == Not(Parity(a, 3))
    ensures Parity(Masked(a), 4) == Parity(a, 4)
  {
    ColumnMasked(a.a00, a.a01, a.a02, a.a03, a.a04);
    ColumnMasked(a.a10, a.a11, a.a12, a.a13, a.a14);
    ColumnMasked(a.a20, a.a21, a.a22, a.a23, a.a24);
    ColumnMasked(a.a30, a.a31, a.a32, a.a33, a.a34);
  }

  lemma ColumnMasked(a0: Lane, a1: Lane, a2: Lane, a3: Lane, a4: Lane)
    ensures Xor(Xor(Xor(Xor(a0, a1), a2), a3), Not(a4)) == Not(Xor(Xor(Xor(Xor(a0, a1), a2), a3), a4))
    ensures Xor(Xor(Xor(Xor(Not(a0), a1), a2), a3), a4) == Not(Xor(Xor(Xor(Xor(a0, a1), a2), a3), a4))
    ensures Xor(Xor(Xor(Xor(Not(a0), a1), Not(a2)), Not(a3)), a4) == Not(Xor(Xor(Xor(Xor(a0, a1), a2), a3), a4))
    ensures Xor(Xor(Xor(Xor(a0, Not(a1)), a2), a3), a4) == Not(Xor(Xor(Xor(Xor(a0, a1), a2), a3), a4))
  {
  }

  /** Theta carries the complement of a column with odd mask into two neighbouring columns. */
  lemma SpreadMasked(a: Lanes)
    ensures Spread(Masked(a), 0) == Not(Spread(a, 0)) && Spread(Masked(a), 1) == Spread(a, 1)
    ensures Spread(Masked(a), 2) == Spread(a, 2) && Spread(Masked(a), 3) == Not(Spread(a, 3))
    ensures Spread(Masked(a), 4) == Spread(a, 4)
  {
    hide Masked, Parity, Rot, Xor, Not;
    ParityMasked(a);
    RotNot(Parity(a, 0), 1);
    RotNot(Parity(a, 1), 1);
    RotNot(Parity(a, 2), 1);
    RotNot(Parity(a, 3), 1);
    XorNot(Parity(a, 4), Rot(Parity(a, 1), 1));
    XorNot(Parity(a, 0), Rot(Parity(a, 2), 1));
    XorNot(Parity(a, 1), Rot(Parity(a, 3), 1));
    XorNot(Parity(a, 2), Rot(Parity(a, 4), 1));
    XorNot(Parity(a, 3), Rot(Parity(a, 0), 1));
  }

  lemma ThetaMasked(a: Lanes)
    ensures Theta(Masked(a)) == SpreadMask(Theta(a))
  {
    hide Theta, Spread, Xor, Not;
    ThetaShape(a);
    ThetaShape(Masked(a));
    SpreadMasked(a);
    XorNot(a.a00, Spread(a, 0));
    XorNot(a.a01, Spread(a, 0));
    XorNot(a.a02, Spread(a, 0));
    XorNot(a.a03, Spread(a, 0));
    XorNot(a.a04, Spread(a, 0));
    XorNot(a.a10, Spread(a, 1));
    XorNot(a.a20, Spread(a, 2));
    XorNot(a.a22, Spread(a, 2));
    XorNot(a.a23, Spread(a, 2));
    XorNot(a.a30, Spread(a, 3));
    XorNot(a.a31, Spread(a, 3));
    XorNot(a.a32, Spread(a, 3));
    XorNot(a.a33, Spread(a, 3));
    XorNot(a.a34, Spread(a, 3));
  }

  // ---------------------------------------------------------------- the round constants

  /** Seven steps at once: the state they lead to and the constant they put out. */
  function Seven(r: Register): (s: (Register, nat))
  {
    var s1 := Shift(r);
    var s2 := Shift(s1);
    var s3 := Shift(s2);
    var s4 := Shift(s3);
    var s5 := Shift(s4);
    var s6 := Shift(s5);
    (Shift(s6), If(r.r0, 1) + If(s1.r0, 2) + If(s2.r0, 8) + If(s3.r0, 0x80) + If(s4.r0, 0x8000) +
                If(s5.r0, 0x8000_0000) + If(s6.r0, 0x8000_0000_0000_0000))
  }

  lemma NextConstant(i: nat)
    ensures Seven(Shifted(7 * i)) == (Shifted(7 * (i + 1)), RoundConstant(i))
  {
    hide Shift;
    var t := 7 * i;
    ShiftedNext(t);
    ShiftedNext(t + 1);
    ShiftedNext(t + 2);
    ShiftedNext(t + 3);
    ShiftedNext(t + 4);
    ShiftedNext(t + 5);
    ShiftedNext(t + 6);
    assert 7 * (i + 1) == t + 7;
  }

  lemma ShiftedNext(t: nat)
    ensures Shifted(t + 1) == Shift(Shifted(t))
    ensures Shifted(0) == Register(true, false, false, false, false, false, false, false)
  {
  }

  lemma Outputs0()
    ensures Seven(Register(true, false, false, false, false, false, false, false)) ==
            (Register(false, false, false, false, false, false, false, true), 0x1)
    ensures Seven(Register(false, false, false, false, false, false, false, true)) ==
            (Register(false, false, false, true, true, false, true, true), 0x8082)
    ensures Seven(Register(false, false, false, true, true, false, true, true)) ==
            (Register(false, true, false, true, true, false, false, false), 0x800000000000808a)
    ensures Seven(Register(false, true, false, true, true, false, false, false)) ==
            (Register(true, true, true, true, true, false, true, true), 0x8000000080008000)
    ensures Seven(Register(true, true, true, true, true, false, true, true)) ==
            (Register(true, false, false, true, false, false, false, false), 0x808b)
    ensures Seven(Register(true, false, false, true, false, false, false, false)) ==
            (Register(true, false, true, false, true, true, false, false), 0x80000001)
    ensures Seven(Register(true, false, true, false, true, true, false, false)) ==
            (Register(true, true, true, true, false, false, true, false), 0x8000000080008081)
    ensures Seven(Register(true, true, true, true, false, false, true, false)) ==
            (Register(false, true, false, true, false, false, true, true), 0x8000000000008009)
  {
  }

  lemma Outputs1()
    ensures Seven(Register(false, true, false, true, false, false, true, true)) ==
            (Register(false, false, false, false, true, true, true, false), 0x8a)
    ensures Seven(Register(false, false, false, false, true, true, true, false)) ==
            (Register(true, false, false, false, false, false, true, false), 0x88)
    ensures Seven(Register(true, false, false, false, false, false, true, false)) ==
            (Register(false, false, true, true, false, true, true, true), 0x80008009)
    ensures Seven(Register(false, false, true, true, false, true, true, true)) ==
            (Register(true, false, true, false, true, false, true, true), 0x8000000a)
    ensures Seven(Register(true, false, true, false, true, false, true, true)) ==
            (Register(true, false, true, true, false, false, true, true), 0x8000808b)
    ensures Seven(Register(true, false, true, true, false, false, true, true)) ==
            (Register(true, true, false, false, false, true, true, false), 0x800000000000008b)
    ensures Seven(Register(true, true, false, false, false, true, true, false)) ==
            (Register(true, true, false, true, false, true, false, true), 0x8000000000008089)
    ensures Seven(Register(true, true, false, true, false, true, false, true)) ==
            (Register(false, true, false, true, false, true, false, true), 0x8000000000008003)
  {
  }

  lemma Outputs2()
    ensures Seven(Register(false, true, false, true, false, true, false, true)) ==
            (Register(false, true, false, true, false, true, false, false), 0x8000000000008002)
    ensures Seven(Register(false, true, false, true, false, true, false, false)) ==
            (Register(false, true, false, false, true, true, true, true), 0x8000000000000080)
    ensures Seven(Register(false, true, false, false, true, true, true, true)) ==
            (Register(false, false, false, true, false, true, true, true), 0x800a)
    ensures Seven(Register(false, false, false, true, false, true, true, true)) ==
            (Register(true, true, true, false, true, true, false, false), 0x800000008000000a)
    ensures Seven(Register(true, true, true, false, true, true, false, false)) ==
            (Register(false, true, true, true, true, true, false, false), 0x8000000080008081)
    ensures Seven(Register(false, true, true, true, true, true, false, false)) ==
            (Register(true, true, false, true, false, false, false, false), 0x8000000000008080)
    ensures Seven(Register(true, true, false, true, false, false, false, false)) ==
            (Register(false, false, true, false, false, false, true, false), 0x80000001)
    ensures Seven(Register(false, false, true, false, false, false, true, false)) ==
            (Register(false, true, true, true, false, false, false, true), 0x8000000080008008)
  {
  }

  /** The table of the code holds the constants the register puts out. */
  lemma ConstantsFollowRegister(i: nat)
    requires i < 24
    ensures RC[i] == RoundConstant(i)
  {
    hide Shifted, RoundConstant, Seven;
    ShiftedNext(0);
    Outputs0();
    Outputs1();
    Outputs2();
    NextConstant(0); NextConstant(1); NextConstant(2);
    NextConstant(3); NextConstant(4); NextConstant(5);
    NextConstant(6); NextConstant(7); NextConstant(8);
    NextConstant(9); NextConstant(10); NextConstant(11);
    NextConstant(12); NextConstant(13); NextConstant(14);
    NextConstant(15); NextConstant(16); NextConstant(17);
    NextConstant(18); NextConstant(19); NextConstant(20);
    NextConstant(21); NextConstant(22); NextConstant(23);
    assert 7 * 0 == 0;
  }

  // ---------------------------------------------------------------- rho and pi

  lemma WalkTable()
    ensures Walk(0) == (1, 0) && Walk(1) == (0, 2) && Walk(2) == (2, 1)
    ensures Walk(3) == (1, 2) && Walk(4) == (2, 3) && Walk(5) == (3, 3)
    ensures Walk(6) == (3, 0) && Walk(7) == (0, 1) && Walk(8) == (1, 3)
    ensures Walk(9) == (3, 1) && Walk(10) == (1, 4) && Walk(11) == (4, 4)
    ensures Walk(12) == (4, 0) && Walk(13) == (0, 3) && Walk(14) == (3, 4)
    ensures Walk(15) == (4, 3) && Walk(16) == (3, 2) && Walk(17) == (2, 2)
    ensures Walk(18) == (2, 0) && Walk(19) == (0, 4) && Walk(20) == (4, 2)
    ensures Walk(21) == (2, 4) && Walk(22) == (4, 1) && Walk(23) == (1, 1)
  {
  }

  /** The rotations of the code are the triangular numbers along the walk. */
  lemma OffsetsFollowWalk(t: nat)
    requires t < 24
    ensures Offset(0, 0) == 0 && Offset(Walk(t).0, Walk(t).1) == ((t + 1) * (t + 2) / 2) % 64
  {
    hide Walk, Offset;
    WalkTable();
    OffsetTable();
    if t < 8 {
      assert t == 0 || t == 1 || t == 2 || t == 3 || t == 4 || t == 5 || t == 6 || t == 7;
    } else if t < 16 {
      assert t == 8 || t == 9 || t == 10 || t == 11 || t == 12 || t == 13 || t == 14 || t == 15;
    } else {
      assert t == 16 || t == 17 || t == 18 || t == 19 || t == 20 || t == 21 || t == 22 || t == 23;
    }
  }

  lemma OffsetTable()
    ensures Offset(0, 0) == 0
    ensures Offset(0, 1) == 36
    ensures Offset(0, 2) == 3
    ensures Offset(0, 3) == 41
    ensures Offset(0, 4) == 18
    ensures Offset(1, 0) == 1
    ensures Offset(1, 1) == 44
    ensures Offset(1, 2) == 10
    ensures Offset(1, 3) == 45
    ensures Offset(1, 4) == 2
    ensures Offset(2, 0) == 62
    ensures Offset(2, 1) == 6
    ensures Offset(2, 2) == 43
    ensures Offset(2, 3) == 15
    ensures Offset(2, 4) == 61
    ensures Offset(3, 0) == 28
    ensures Offset(3, 1) == 55
    ensures Offset(3, 2) == 25
    ensures Offset(3, 3) == 21
    ensures Offset(3, 4) == 56
    ensures Offset(4, 0) == 27
    ensures Offset(4, 1) == 20
    ensures Offset(4, 2) == 39
    ensures Offset(4, 3) == 8
    ensures Offset(4, 4) == 14
  {
  }

  lemma FastRhoIsRho(b: Lanes)
    ensures FastRho(b) == Rho(b)
  {
    hide Rot, Offset;
    RotNone(b.a00);
    OffsetTable();
  }

  lemma RhoMasked(a: Lanes)
    ensures FastRho(SpreadMask(a)) == SpreadMask(FastRho(a))
  {
    hide Rot, Not;
    RotNot(a.a01, 36);
    RotNot(a.a02, 3);
    RotNot(a.a03, 41);
    RotNot(a.a10, 1);
    RotNot(a.a20, 62);
    RotNot(a.a22, 43);
    RotNot(a.a23, 15);
    RotNot(a.a30, 28);
    RotNot(a.a32, 25);
    RotNot(a.a33, 21);
    RotNot(a.a34, 56);
  }

  lemma PiShape(a: Lanes)
    ensures Pi(a) == Lanes(a.a00, a.a30, a.a10, a.a40, a.a20, a.a11, a.a41, a.a21, a.a01, a.a31, a.a22, a.a02, a.a32,
                           a.a12, a.a42, a.a33, a.a13, a.a43, a.a23, a.a03, a.a44, a.a24, a.a04, a.a34, a.a14)
  {
    hide Pi;
    PiFrom(a);
  }

  lemma PiFrom(a: Lanes)
    ensures Pi(a) == Lanes(At(a, 0, 0), At(a, 3, 0), At(a, 1, 0), At(a, 4, 0), At(a, 2, 0),
                           At(a, 1, 1), At(a, 4, 1), At(a, 2, 1), At(a, 0, 1), At(a, 3, 1),
                           At(a, 2, 2), At(a, 0, 2), At(a, 3, 2), At(a, 1, 2), At(a, 4, 2),
                           At(a, 3, 3), At(a, 1, 3), At(a, 4, 3), At(a, 2, 3), At(a, 0, 3),
                           At(a, 4, 4), At(a, 2, 4), At(a, 0, 4), At(a, 3, 4), At(a, 1, 4))
  {
    hide At;
  }

  lemma PiMasked(a: Lanes)
    ensures Pi(SpreadMask(a)) == ChiMask(Pi(a))
  {
    hide Pi;
    PiShape(a);
    PiShape(SpreadMask(a));
  }

  // ---------------------------------------------------------------- chi

  lemma ChiShape(a: Lanes)
    ensures Chi(a) == Lanes(ChiLane(a.a00, a.a10, a.a20), ChiLane(a.a01, a.a11, a.a21), ChiLane(a.a02, a.a12, a.a22),
                            ChiLane(a.a03, a.a13, a.a23), ChiLane(a.a04, a.a14, a.a24),
                            ChiLane(a.a10, a.a20, a.a30), ChiLane(a.a11, a.a21, a.a31), ChiLane(a.a12, a.a22, a.a32),
                            ChiLane(a.a13, a.a23, a.a33), ChiLane(a.a14, a.a24, a.a34),
                            ChiLane(a.a20, a.a30, a.a40), ChiLane(a.a21, a.a31, a.a41), ChiLane(a.a22, a.a32, a.a42),
                            ChiLane(a.a23, a.a33, a.a43), ChiLane(a.a24, a.a34, a.a44),
                            ChiLane(a.a30, a.a40, a.a00), ChiLane(a.a31, a.a41, a.a01), ChiLane(a.a32, a.a42, a.a02),
                            ChiLane(a.a33, a.a43, a.a03), ChiLane(a.a34, a.a44, a.a04),
                            ChiLane(a.a40, a.a00, a.a10), ChiLane(a.a41, a.a01, a.a11), ChiLane(a.a42, a.a02, a.a12),
                            ChiLane(a.a43, a.a03, a.a13), ChiLane(a.a44, a.a04, a.a14))
  {
    hide Chi, ChiLane;
    ChiFrom(a);
  }

  lemma ChiFrom(a: Lanes)
    ensures Chi(a) == Lanes(ChiLane(At(a, 0, 0), At(a, 1, 0), At(a, 2, 0)),
                            ChiLane(At(a, 0, 1), At(a, 1, 1), At(a, 2, 1)),
                            ChiLane(At(a, 0, 2), At(a, 1, 2), At(a, 2, 2)),
                            ChiLane(At(a, 0, 3), At(a, 1, 3), At(a, 2, 3)),
                            ChiLane(At(a, 0, 4), At(a, 1, 4), At(a, 2, 4)),
                            ChiLane(At(a, 1, 0), At(a, 2, 0), At(a, 3, 0)),
                            ChiLane(At(a, 1, 1), At(a, 2, 1), At(a, 3, 1)),
                            ChiLane(At(a, 1, 2), At(a, 2, 2), At(a, 3, 2)),
                            ChiLane(At(a, 1, 3), At(a, 2, 3), At(a, 3, 3)),
                            ChiLane(At(a, 1, 4), At(a, 2, 4), At(a, 3, 4)),
                            ChiLane(At(a, 2, 0), At(a, 3, 0), At(a, 4, 0)),
                            ChiLane(At(a, 2, 1), At(a, 3, 1), At(a, 4, 1)),
                            ChiLane(At(a, 2, 2), At(a, 3, 2), At(a, 4, 2)),
                            ChiLane(At(a, 2, 3), At(a, 3, 3), At(a, 4, 3)),
                            ChiLane(At(a, 2, 4), At(a, 3, 4), At(a, 4, 4)),
                            ChiLane(At(a, 3, 0), At(a, 4, 0), At(a, 0, 0)),
                            ChiLane(At(a, 3, 1), At(a, 4, 1), At(a, 0, 1)),
                            ChiLane(At(a, 3, 2), At(a, 4, 2), At(a, 0, 2)),
                            ChiLane(At(a, 3, 3), At(a, 4, 3), At(a, 0, 3)),
                            ChiLane(At(a, 3, 4), At(a, 4, 4), At(a, 0, 4)),
                            ChiLane(At(a, 4, 0), At(a, 0, 0), At(a, 1, 0)),
                            ChiLane(At(a, 4, 1), At(a, 0, 1), At(a, 1, 1)),
                            ChiLane(At(a, 4, 2), At(a, 0, 2), At(a, 1, 2)),
                            ChiLane(At(a, 4, 3), At(a, 0, 3), At(a, 1, 3)),
                            ChiLane(At(a, 4, 4), At(a, 0, 4), At(a, 1, 4)))
  {
    hide At, ChiLane;
  }

  lemma KhiRow0Masked(b0: Lane, b1: Lane, b2: Lane, b3: Lane, b4: Lane)
    ensures KhiRow0(Not(b0), b1, Not(b2), Not(b3), b4) ==
            Row(ChiLane(b0, b1, b2), Not(ChiLane(b1, b2, b3)), Not(ChiLane(b2, b3, b4)),
                ChiLane(b3, b4, b0), ChiLane(b4, b0, b1))
  {
    var r := KhiRow0(Not(b0), b1, Not(b2), Not(b3), b4);
    assert r.c0 == ChiLane(b0, b1, b2);
    assert r.c1 == Not(ChiLane(b1, b2, b3));
    assert r.c2 == Not(ChiLane(b2, b3, b4));
    assert r.c3 == ChiLane(b3, b4, b0);
    assert r.c4 == ChiLane(b4, b0, b1);
  }

  lemma KhiRow1Masked(b0: Lane, b1: Lane, b2: Lane, b3: Lane, b4: Lane)
    ensures KhiRow1(Not(b0), b1, Not(b2), b3, b4) ==
            Row(ChiLane(b0, b1, b2), ChiLane(b1, b2, b3), ChiLane(b2, b3, b4),
                Not(ChiLane(b3, b4, b0)), ChiLane(b4, b0, b1))
  {
    var r := KhiRow1(Not(b0), b1, Not(b2), b3, b4);
    assert r.c0 == ChiLane(b0, b1, b2);
    assert r.c1 == ChiLane(b1, b2, b3);
    assert r.c2 == ChiLane(b2, b3, b4);
    assert r.c3 == Not(ChiLane(b3, b4, b0));
    assert r.c4 == ChiLane(b4, b0, b1);
  }

  lemma KhiRow2Masked(b0: Lane, b1: Lane, b2: Lane, b3: Lane, b4: Lane)
    ensures KhiRow2(Not(b0), b1, Not(b2), b3, b4) ==
            Row(ChiLane(b0, b1, b2), ChiLane(b1, b2, b3), Not(ChiLane(b2, b3, b4)),
                ChiLane(b3, b4, b0), ChiLane(b4, b0, b1))
  {
    var r := KhiRow2(Not(b0), b1, Not(b2), b3, b4);
    assert r.c0 == ChiLane(b0, b1, b2);
    assert r.c1 == ChiLane(b1, b2, b3);
    assert r.c2 == Not(ChiLane(b2, b3, b4));
    assert r.c3 == ChiLane(b3, b4, b0);
    assert r.c4 == ChiLane(b4, b0, b1);
  }

  lemma KhiRow3Masked(b0: Lane, b1: Lane, b2: Lane, b3: Lane, b4: Lane)
    ensures KhiRow3(b0, Not(b1), b2, Not(b3), Not(b4)) ==
            Row(ChiLane(b0, b1, b2), ChiLane(b1, b2, b3), Not(ChiLane(b2, b3, b4)),
                ChiLane(b3, b4, b0), ChiLane(b4, b0, b1))
  {
    var r := KhiRow3(b0, Not(b1), b2, Not(b3), Not(b4));
    assert r.c0 == ChiLane(b0, b1, b2);
    assert r.c1 == ChiLane(b1, b2, b3);
    assert r.c2 == Not(ChiLane(b2, b3, b4));
    assert r.c3 == ChiLane(b3, b4, b0);
    assert r.c4 == ChiLane(b4, b0, b1);
  }

  lemma KhiRow4Masked(b0: Lane, b1: Lane, b2: Lane, b3: Lane, b4: Lane)
    ensures KhiRow4(Not(b0), b1, b2, Not(b3), b4) ==
            Row(Not(ChiLane(b0, b1, b2)), ChiLane(b1, b2, b3), ChiLane(b2, b3, b4),
                ChiLane(b3, b4, b0), ChiLane(b4, b0, b1))
  {
    var r := KhiRow4(Not(b0), b1, b2, Not(b3), b4);
    assert r.c0 == Not(ChiLane(b0, b1, b2));
    assert r.c1 == ChiLane(b1, b2, b3);
    assert r.c2 == ChiLane(b2, b3, b4);
    assert r.c3 == ChiLane(b3, b4, b0);
    assert r.c4 == ChiLane(b4, b0, b1);
  }

  /** `KHI` on a state under its input mask is chi under the mask kept between rounds. */
  lemma KhiMasked(a: Lanes)
    ensures FastKhi(ChiMask(a)) == Masked(Chi(a))
  {
    hide Chi, ChiLane, KhiRow0, KhiRow1, KhiRow2, KhiRow3, KhiRow4, Not;
    ChiShape(a);
    KhiRow0Masked(a.a00, a.a10, a.a20, a.a30, a.a40);
    KhiRow1Masked(a.a01, a.a11, a.a21, a.a31, a.a41);
    KhiRow2Masked(a.a02, a.a12, a.a22, a.a32, a.a42);
    KhiRow3Masked(a.a03, a.a13, a.a23, a.a33, a.a43);
    KhiRow4Masked(a.a04, a.a14, a.a24, a.a34, a.a44);
  }

  lemma IotaMasked(a: Lanes, k: Lane)
    ensures Iota(Masked(a), k) == Masked(Iota(a, k))
  {
  }

  lemma AllRounds(a: Lanes, n: nat)
    requires n == 24
    ensures Permute(a) == Rounds(a, n)
  {
  }

  lemma NoRounds(a: Lanes)
    ensures Rounds(a, 0) == a
  {
  }

  lemma NextRound(a: Lanes, n: nat)
    requires n < 24
    ensures Rounds(a, n + 1) == Round(Rounds(a, n), Word(RC[n]))
  {
    hide Round, Word, RoundConstant;
    ConstantsFollowRegister(n);
  }

  /** One round of the fast form, the lanes renamed for pi, is one round on the plain state. */
  lemma RoundRefines(a: Lanes, k: Lane)
    ensures Iota(FastKhi(Pi(FastRho(FastTheta(Masked(a))))), k) == Masked(Round(a, k))
  {
    hide FastKhi, FastRho, FastTheta, Masked, SpreadMask, ChiMask, Theta, Rho, Pi, Chi, Iota;
    FastThetaIsTheta(Masked(a));
    ThetaMasked(a);
    RhoMasked(Theta(a));
    FastRhoIsRho(Theta(a));
    PiMasked(Rho(Theta(a)));
    KhiMasked(Pi(Rho(Theta(a))));
    IotaMasked(Chi(Pi(Rho(Theta(a)))), k);
  }

  // ---------------------------------------------------------------- the unrolled permutation

  /** `KECCAK_F_1600`, eight rounds at a time. */
  method FastPermute(s: Lanes) returns (r: Lanes)
    ensures r == Masked(Permute(Masked(s)))
  {
    hide Masked, Permute, Rounds;
    ghost var plain := Masked(s);
    MaskedTwice(s);
    NoRounds(plain);
    r := s;
    var j := 0;
    while j < 24
      invariant 0 <= j <= 24 && j % 8 == 0 && r == Masked(Rounds(plain, j))
    {
      r := EightRounds(r, j, plain);
      j := j + 8;
    }
    AllRounds(plain, j);
  }

  /** The body of the loop: every pass works on the lanes under the names of `P0` to `P8`, and `P8_TO_P0`
      moves the lanes back. */
  method EightRounds(s: Lanes, j: nat, ghost plain: Lanes) returns (r: Lanes)
    requires j <= 16 && s == Masked(Rounds(plain, j))
    ensures r == Masked(Rounds(plain, j + 8))
  {
    hide FastTheta, FastRho, FastKhi, Masked, Round, Pi, Rounds, Word, Xor;
    var a00, a01, a02, a03, a04, a10, a11, a12, a13, a14, a20, a21, a22,
        a23, a24, a30, a31, a32, a33, a34, a40, a41, a42, a43, a44 :=
      s.a00, s.a01, s.a02, s.a03, s.a04, s.a10, s.a11, s.a12, s.a13, s.a14, s.a20, s.a21, s.a22,
      s.a23, s.a24, s.a30, s.a31, s.a32, s.a33, s.a34, s.a40, s.a41, s.a42, s.a43, s.a44;
    var b := s;
    // KF_ELT(0, 1, RC[j + 0])
    b := FastRho(FastTheta(Lanes(a00, a01, a02, a03, a04, a10, a11, a12, a13, a14, a20, a21, a22,
                                   a23, a24, a30, a31, a32, a33, a34, a40, a41, a42, a43, a44)));
    a00, a01, a02, a03, a04, a10, a11, a12, a13, a14, a20, a21, a22,
    a23, a24, a30, a31, a32, a33, a34, a40, a41, a42, a43, a44 :=
      b.a00, b.a01, b.a02, b.a03, b.a04, b.a10, b.a11, b.a12, b.a13, b.a14, b.a20, b.a21, b.a22,
      b.a23, b.a24, b.a30, b.a31, b.a32, b.a33, b.a34, b.a40, b.a41, b.a42, b.a43, b.a44;
    PiShape(b);
    b := FastKhi(Lanes(a00, a30, a10, a40, a20, a11, a41, a21, a01, a31, a22, a02, a32,
                       a12, a42, a33, a13, a43, a23, a03, a44, a24, a04, a34, a14));
    a00, a30, a10, a40, a20, a11, a41, a21, a01, a31, a22, a02, a32,
    a12, a42, a33, a13, a43, a23, a03, a44, a24, a04, a34, a14 :=
      b.a00, b.a01, b.a02, b.a03, b.a04, b.a10, b.a11, b.a12, b.a13, b.a14, b.a20, b.a21, b.a22,
      b.a23, b.a24, b.a30, b.a31, b.a32, b.a33, b.a34, b.a40, b.a41, b.a42, b.a43, b.a44;
    a00 := Xor(a00, Word(RC[j + 0]));
    RoundRefines(Rounds(plain, j + 0), Word(RC[j + 0]));
    NextRound(plain, j + 0);
    // KF_ELT(1, 2, RC[j + 1])
    b := FastRho(FastTheta(Lanes(a00, a30, a10, a40, a20, a11, a41, a21, a01, a31, a22, a02, a32,
                                   a12, a42, a33, a13, a43, a23, a03, a44, a24, a04, a34, a14)));
    a00, a30, a10, a40, a20, a11, a41, a21, a01, a31, a22, a02, a32,
    a12, a42, a33, a13, a43, a23, a03, a44, a24, a04, a34, a14 :=
      b.a00, b.a01, b.a02, b.a03, b.a04, b.a10, b.a11, b.a12, b.a13, b.a14, b.a20, b.a21, b.a22,
      b.a23, b.a24, b.a30, b.a31, b.a32, b.a33, b.a34, b.a40, b.a41, b.a42, b.a43, b.a44;
    PiShape(b);
    b := FastKhi(Lanes(a00, a33, a11, a44, a22, a41, a24, a02, a30, a13, a32, a10, a43,
                       a21, a04, a23, a01, a34, a12, a40, a14, a42, a20, a03, a31));
    a00, a33, a11, a44, a22, a41, a24, a02, a30, a13, a32, a10, a43,
    a21, a04, a23, a01, a34, a12, a40, a14, a42, a20, a03, a31 :=
      b.a00, b.a01, b.a02, b.a03, b.a04, b.a10, b.a11, b.a12, b.a13, b.a14, b.a20, b.a21, b.a22,
      b.a23, b.a24, b.a30, b.a31, b.a32, b.a33, b.a34, b.a40, b.a41, b.a42, b.a43, b.a44;
    a00 := Xor(a00, Word(RC[j + 1]));
    RoundRefines(Rounds(plain, j + 1), Word(RC[j + 1]));
    NextRound(plain, j + 1);
    // KF_ELT(2, 3, RC[j + 2])
    b := FastRho(FastTheta(Lanes(a00, a33, a11, a44, a22, a41, a24, a02, a30, a13, a32, a10, a43,
                                   a21, a04, a23, a01, a34, a12, a40, a14, a42, a20, a03, a31)));
    a00, a33, a11, a44, a22, a41, a24, a02, a30, a13, a32, a10, a43,
    a21, a04, a23, a01, a34, a12, a40, a14, a42, a20, a03, a31 :=
      b.a00, b.a01, b.a02, b.a03, b.a04, b.a10, b.a11, b.a12, b.a13, b.a14, b.a20, b.a21, b.a22,
      b.a23, b.a24, b.a30, b.a31, b.a32, b.a33, b.a34, b.a40, b.a41, b.a42, b.a43, b.a44;
    PiShape(b);
    b := FastKhi(Lanes(a00, a23, a41, a14, a32, a24, a42, a10, a33, a01, a43, a11, a34,
                       a02, a20, a12, a30, a03, a21, a44, a31, a04, a22, a40, a13));
    a00, a23, a41, a14, a32, a24, a42, a10, a33, a01, a43, a11, a34,
    a02, a20, a12, a30, a03, a21, a44, a31, a04, a22, a40, a13 :=
      b.a00, b.a01, b.a02, b.a03, b.a04, b.a10, b.a11, b.a12, b.a13, b.a14, b.a20, b.a21, b.a22,
      b.a23, b.a24, b.a30, b.a31, b.a32, b.a33, b.a34, b.a40, b.a41, b.a42, b.a43, b.a44;
    a00 := Xor(a00, Word(RC[j + 2]));
    RoundRefines(Rounds(plain, j + 2), Word(RC[j + 2]));
    NextRound(plain, j + 2);
    // KF_ELT(3, 4, RC[j + 3])
    b := FastRho(FastTheta(Lanes(a00, a23, a41, a14, a32, a24, a42, a10, a33, a01, a43, a11, a34,
                                   a02, a20, a12, a30, a03, a21, a44, a31, a04, a22, a40, a13)));
    a00, a23, a41, a14, a32, a24, a42, a10, a33, a01, a43, a11, a34,
    a02, a20, a12, a30, a03, a21, a44, a31, a04, a22, a40, a13 :=
      b.a00, b.a01, b.a02, b.a03, b.a04, b.a10, b.a11, b.a12, b.a13, b.a14, b.a20, b.a21, b.a22,
      b.a23, b.a24, b.a30, b.a31, b.a32, b.a33, b.a34, b.a40, b.a41, b.a42, b.a43, b.a44;
    PiShape(b);
    b := FastKhi(Lanes(a00, a12, a24, a31, a43, a42, a04, a11, a23, a30, a34, a41, a03,
                       a10, a22, a21, a33, a40, a02, a14, a13, a20, a32, a44, a01));
    a00, a12, a24, a31, a43, a42, a04, a11, a23, a30, a34, a41, a03,
    a10, a22, a21, a33, a40, a02, a14, a13, a20, a32, a44, a01 :=
      b.a00, b.a01, b.a02, b.a03, b.a04, b.a10, b.a11, b.a12, b.a13, b.a14, b.a20, b.a21, b.a22,
      b.a23, b.a24, b.a30, b.a31, b.a32, b.a33, b.a34, b.a40, b.a41, b.a42, b.a43, b.a44;
    a00 := Xor(a00, Word(RC[j + 3]));
    RoundRefines(Rounds(plain, j + 3), Word(RC[j + 3]));
    NextRound(plain, j + 3);
    // KF_ELT(4, 5, RC[j + 4])
    b := FastRho(FastTheta(Lanes(a00, a12, a24, a31, a43, a42, a04, a11, a23, a30, a34, a41, a03,
                                   a10, a22, a21, a33, a40, a02, a14, a13, a20, a32, a44, a01)));
    a00, a12, a24, a31, a43, a42, a04, a11, a23, a30, a34, a41, a03,
    a10, a22, a21, a33, a40, a02, a14, a13, a20, a32, a44, a01 :=
      b.a00, b.a01, b.a02, b.a03, b.a04, b.a10, b.a11, b.a12, b.a13, b.a14, b.a20, b.a21, b.a22,
      b.a23, b.a24, b.a30, b.a31, b.a32, b.a33, b.a34, b.a40, b.a41, b.a42, b.a43, b.a44;
    PiShape(b);
    b := FastKhi(Lanes(a00, a21, a42, a13, a34, a04, a20, a41, a12, a33, a03, a24, a40,
                       a11, a32, a02, a23, a44, a10, a31, a01, a22, a43, a14, a30));
    a00, a21, a42, a13, a34, a04, a20, a41, a12, a33, a03, a24, a40,
    a11, a32, a02, a23, a44, a10, a31, a01, a22, a43, a14, a30 :=
      b.a00, b.a01, b.a02, b.a03, b.a04, b.a10, b.a11, b.a12, b.a13, b.a14, b.a20, b.a21, b.a22,
      b.a23, b.a24, b.a30, b.a31, b.a32, b.a33, b.a34, b.a40, b.a41, b.a42, b.a43, b.a44;
    a00 := Xor(a00, Word(RC[j + 4]));
    RoundRefines(Rounds(plain, j + 4), Word(RC[j + 4]));
    NextRound(plain, j + 4);
    // KF_ELT(5, 6, RC[j + 5])
    b := FastRho(FastTheta(Lanes(a00, a21, a42, a13, a34, a04, a20, a41, a12, a33, a03, a24, a40,
                                   a11, a32, a02, a23, a44, a10, a31, a01, a22, a43, a14, a30)));
    a00, a21, a42, a13, a34, a04, a20, a41, a12, a33, a03, a24, a40,
    a11, a32, a02, a23, a44, a10, a31, a01, a22, a43, a14, a30 :=
      b.a00, b.a01, b.a02, b.a03, b.a04, b.a10, b.a11, b.a12, b.a13, b.a14, b.a20, b.a21, b.a22,
      b.a23, b.a24, b.a30, b.a31, b.a32, b.a33, b.a34, b.a40, b.a41, b.a42, b.a43, b.a44;
    PiShape(b);
    b := FastKhi(Lanes(a00, a02, a04, a01, a03, a20, a22, a24, a21, a23, a40, a42, a44,
                       a41, a43, a10, a12, a14, a11, a13, a30, a32, a34, a31, a33));
    a00, a02, a04, a01, a03, a20, a22, a24, a21, a23, a40, a42, a44,
    a41, a43, a10, a12, a14, a11, a13, a30, a32, a34, a31, a33 :=
      b.a00, b.a01, b.a02, b.a03, b.a04, b.a10, b.a11, b.a12, b.a13, b.a14, b.a20, b.a21, b.a22,
      b.a23, b.a24, b.a30, b.a31, b.a32, b.a33, b.a34, b.a40, b.a41, b.a42, b.a43, b.a44;
    a00 := Xor(a00, Word(RC[j + 5]));
    RoundRefines(Rounds(plain, j + 5), Word(RC[j + 5]));
    NextRound(plain, j + 5);
    // KF_ELT(6, 7, RC[j + 6])
    b := FastRho(FastTheta(Lanes(a00, a02, a04, a01, a03, a20, a22, a24, a21, a23, a40, a42, a44,
                                   a41, a43, a10, a12, a14, a11, a13, a30, a32, a34, a31, a33)));
    a00, a02, a04, a01, a03, a20, a22, a24, a21, a23, a40, a42, a44,
    a41, a43, a10, a12, a14, a11, a13, a30, a32, a34, a31, a33 :=
      b.a00, b.a01, b.a02, b.a03, b.a04, b.a10, b.a11, b.a12, b.a13, b.a14, b.a20, b.a21, b.a22,
      b.a23, b.a24, b.a30, b.a31, b.a32, b.a33, b.a34, b.a40, b.a41, b.a42, b.a43, b.a44;
    PiShape(b);
    b := FastKhi(Lanes(a00, a10, a20, a30, a40, a22, a32, a42, a02, a12, a44, a04, a14,
                       a24, a34, a11, a21, a31, a41, a01, a33, a43, a03, a13, a23));
    a00, a10, a20, a30, a40, a22, a32, a42, a02, a12, a44, a04, a14,
    a24, a34, a11, a21, a31, a41, a01, a33, a43, a03, a13, a23 :=
      b.a00, b.a01, b.a02, b.a03, b.a04, b.a10, b.a11, b.a12, b.a13, b.a14, b.a20, b.a21, b.a22,
      b.a23, b.a24, b.a30, b.a31, b.a32, b.a33, b.a34, b.a40, b.a41, b.a42, b.a43, b.a44;
    a00 := Xor(a00, Word(RC[j + 6]));
    RoundRefines(Rounds(plain, j + 6), Word(RC[j + 6]));
    NextRound(plain, j + 6);
    // KF_ELT(7, 8, RC[j + 7])
    b := FastRho(FastTheta(Lanes(a00, a10, a20, a30, a40, a22, a32, a42, a02, a12, a44, a04, a14,
                                   a24, a34, a11, a21, a31, a41, a01, a33, a43, a03, a13, a23)));
    a00, a10, a20, a30, a40, a22, a32, a42, a02, a12, a44, a04, a14,
    a24, a34, a11, a21, a31, a41, a01, a33, a43, a03, a13, a23 :=
      b.a00, b.a01, b.a02, b.a03, b.a04, b.a10, b.a11, b.a12, b.a13, b.a14, b.a20, b.a21, b.a22,
      b.a23, b.a24, b.a30, b.a31, b.a32, b.a33, b.a34, b.a40, b.a41, b.a42, b.a43, b.a44;
    PiShape(b);
    b := FastKhi(Lanes(a00, a11, a22, a33, a44, a32, a43, a04, a10, a21, a14, a20, a31,
                       a42, a03, a41, a02, a13, a24, a30, a23, a34, a40, a01, a12));
    a00, a11, a22, a33, a44, a32, a43, a04, a10, a21, a14, a20, a31,
    a42, a03, a41, a02, a13, a24, a30, a23, a34, a40, a01, a12 :=
      b.a00, b.a01, b.a02, b.a03, b.a04, b.a10, b.a11, b.a12, b.a13, b.a14, b.a20, b.a21, b.a22,
      b.a23, b.a24, b.a30, b.a31, b.a32, b.a33, b.a34, b.a40, b.a41, b.a42, b.a43, b.a44;
    a00 := Xor(a00, Word(RC[j + 7]));
    RoundRefines(Rounds(plain, j + 7), Word(RC[j + 7]));
    NextRound(plain, j + 7);
    // P8_TO_P0
    var t := a01;
    a01 := a11; a11 := a43; a43 := t; t := a02; a02 := a22; a22 := a31; a31 := t; t := a03;
    a03 := a33; a33 := a24; a24 := t; t := a04; a04 := a44; a44 := a12; a12 := t; t := a10;
    a10 := a32; a32 := a13; a13 := t; t := a14; a14 := a21; a21 := a20; a20 := t; t := a23;
    a23 := a42; a42 := a40; a40 := t; t := a30; a30 := a41; a41 := a34; a34 := t;
    r := Lanes(a00, a01, a02, a03, a04, a10, a11, a12, a13, a14, a20, a21, a22,
              a23, a24, a30, a31, a32, a33, a34, a40, a41, a42, a43, a44);
  }
}
