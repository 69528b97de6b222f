/** Numbers in a base: the positional values, the shortest representation, and changing the base of a
    digit string while keeping its leading zeros. */
module Digits {
  import opened Arith

  predicate AreDigits(b: nat, s: seq<nat>)
  {
    forall i :: 0 <= i < |s| ==> s[i] < b
  }

  /** The value of digits, most significant first. */
  function Num(b: nat, s: seq<nat>): (n: nat)
  {
    if s == [] then 0 else b * Num(b, s[..|s| - 1]) + s[|s| - 1]
  }

  /** The shortest digits of a number; none for zero. */
  function Rep(b: nat, n: nat): (s: seq<nat>)
    requires b >= 2
    ensures AreDigits(b, s)
    ensures n > 0 <==> s != []
    ensures s != [] ==> s[0] != 0
    decreases n
  {
    if n == 0 then [] else
      Quotient(n, b);
      Rep(b, n / b) + [n % b]
  }

  function Zeros(k: nat): (s: seq<nat>)
    ensures |s| == k && forall i :: 0 <= i < k ==> s[i] == 0
  {
    seq(k, _ => 0)
  }

  function LeadingZeros(s: seq<nat>): (k: nat)
    ensures k <= |s|
  {
    if s != [] && s[0] == 0 then 1 + LeadingZeros(s[1..]) else 0
  }

  lemma NumAppend(b: nat, s: seq<nat>, d: nat)
    ensures Num(b, s + [d]) == b * Num(b, s) + d
  {
    assert (s + [d])[..|s|] == s;
  }

  lemma {:induction false} NumOfRep(b: nat, n: nat)
    requires b >= 2
    ensures Num(b, Rep(b, n)) == n
    decreases n
  {
    hide Num;
    if n > 0 {
      Quotient(n, b);
      NumOfRep(b, n / b);
      NumAppend(b, Rep(b, n / b), n % b);
    } else {
      NumNothing(b);
    }
  }

  lemma NumNothing(b: nat)
    ensures Num(b, []) == 0
  {
  }

  /** Digits without leading zeros are the shortest ones of their value. */
  lemma {:induction false} RepOfNum(b: nat, s: seq<nat>)
    requires b >= 2 && AreDigits(b, s) && (s != [] ==> s[0] != 0)
    ensures Rep(b, Num(b, s)) == s
  {
    if s != [] {
      var last := |s| - 1;
      var t := s[..last];
      RepOfNum(b, t);
      RepAppend(b, Num(b, t), s[last]);
      assert s == t + [s[last]];
    }
  }

  lemma RepAppend(b: nat, x: nat, d: nat)
    requires b >= 2 && d < b && (x > 0 || d > 0)
    ensures b * x + d > 0 && Rep(b, b * x + d) == Rep(b, x) + [d]
  {
    DivModUnique(b * x + d, b, x, d);
    if x > 0 {
      MulAtLeast(x, b);
    }
  }

  lemma {:induction false} NumPadded(b: nat, k: nat, s: seq<nat>)
    ensures Num(b, Zeros(k) + s) == Num(b, s)
    decreases |s|, k
  {
    if s != [] {
      var last := |s| - 1;
      NumPadded(b, k, s[..last]);
      assert (Zeros(k) + s)[..k + last] == Zeros(k) + s[..last];
    } else if k > 0 {
      NumPadded(b, k - 1, []);
      assert Zeros(k) + s == Zeros(k - 1) + [] + [0];
      NumAppend(b, Zeros(k - 1) + [], 0);
    }
  }

  lemma {:induction false} LeadingSplit(s: seq<nat>)
    ensures var k := LeadingZeros(s);
            s == Zeros(k) + s[k..] && (s[k..] != [] ==> s[k] != 0)
  {
    if s != [] && s[0] == 0 {
      var t := s[1..];
      var k := LeadingZeros(t);
      LeadingSplit(t);
      assert LeadingZeros(s) == k + 1 && t[k..] == s[k + 1..];
      assert s == [0] + t == [0] + (Zeros(k) + t[k..]) == [0] + Zeros(k) + t[k..];
      assert Zeros(k + 1) == [0] + Zeros(k);
    }
  }

  lemma {:induction false} LeadingPadded(k: nat, t: seq<nat>)
    requires t != [] ==> t[0] != 0
    ensures LeadingZeros(Zeros(k) + t) == k
  {
    if k > 0 {
      LeadingPadded(k - 1, t);
      assert (Zeros(k) + t)[1..] == Zeros(k - 1) + t;
    }
  }

  /** Digits in base `b` written in base `c`, each leading zero kept. */
  function Transcoded(b: nat, c: nat, s: seq<nat>): (r: seq<nat>)
    requires c >= 2
    ensures AreDigits(c, r)
  {
    Zeros(LeadingZeros(s)) + Rep(c, Num(b, s))
  }

  /** Changing the base and back gives every digit string again. */
  lemma TranscodedBack(b: nat, c: nat, s: seq<nat>)
    requires b >= 2 && c >= 2 && AreDigits(b, s)
    ensures Transcoded(c, b, Transcoded(b, c, s)) == s
  {
    hide Num, Rep, LeadingZeros, Zeros;
    var k := LeadingZeros(s);
    var t := s[k..];
    LeadingSplit(s);
    var n := Num(b, s);
    var r := Rep(c, n);
    LeadingPadded(k, r);
    NumPadded(c, k, r);
    NumOfRep(c, n);
    NumPadded(b, k, t);
    RepOfNum(b, t);
  }

  lemma {:induction false} NumBound(b: nat, s: seq<nat>)
    requires b > 0 && AreDigits(b, s)
    ensures Num(b, s) < Pow(b, |s|)
  {
    if s != [] {
      var last := |s| - 1;
      NumBound(b, s[..last]);
      DigitBound(b, Num(b, s[..last]), Pow(b, last), s[last]);
    }
  }

  /** The value of a prefix counts as often as the rest has room for. */
  lemma {:induction false} NumSplit(b: nat, s: seq<nat>, j: nat)
    requires j <= |s|
    ensures Num(b, s) == Num(b, s[..j]) * Pow(b, |s| - j) + Num(b, s[j..])
    decreases |s| - j
  {
    hide Num, Pow;
    if j == |s| {
      assert s[..j] == s && s[j..] == [];
      NumNothing(b);
      PowStep(b, 0);
    } else {
      var last := |s| - 1;
      NumSplit(b, s[..last], j);
      assert s[..last][..j] == s[..j] && s[..last][j..] == s[j..last];
      assert s == s[..last] + [s[last]] && s[j..] == s[j..last] + [s[last]];
      NumAppend(b, s[..last], s[last]);
      NumAppend(b, s[j..last], s[last]);
      PowStep(b, last - j);
      Regroup(b, Num(b, s[..j]), Pow(b, last - j), Num(b, s[j..last]));
    }
  }
}
