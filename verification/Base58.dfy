/** Base58 strings (src/base58.h): the conversion loops over a big number, what the decoder accepts, and the
    checksummed and versioned forms. The hash function is a parameter. */
module Base58 {
  import Arith
  import opened Digits
  import opened Bignum
  import opened Wrappers

  const ALPHABET: string :=
    "123456789" + "ABCDEFGH" + "JKLMN" + "PQRSTUVWXYZ" + "abcdefghijk" + "mnopqrstuvwxyz"

  // ---------------------------------------------------------------- characters

  /** The digit a character stands for. */
  function Digit(c: char): (d: Option<nat>)
    ensures d.Some? ==> d.value < 58
  {
    if '1' <= c <= '9' then Some(c as nat - '1' as nat)
    else if 'A' <= c <= 'H' then Some(c as nat - 'A' as nat + 9)
    else if 'J' <= c <= 'N' then Some(c as nat - 'J' as nat + 17)
    else if 'P' <= c <= 'Z' then Some(c as nat - 'P' as nat + 22)
    else if 'a' <= c <= 'k' then Some(c as nat - 'a' as nat + 33)
    else if 'm' <= c <= 'z' then Some(c as nat - 'm' as nat + 44)
    else None
  }

  lemma FirstHalf()
    ensures |ALPHABET| == 58
    ensures ALPHABET[0] == '1' && ALPHABET[1] == '2' && ALPHABET[2] == '3' && ALPHABET[3] == '4' && ALPHABET[4] == '5'
    ensures ALPHABET[5] == '6' && ALPHABET[6] == '7' && ALPHABET[7] == '8' && ALPHABET[8] == '9' && ALPHABET[9] == 'A'
    ensures ALPHABET[10] == 'B' && ALPHABET[11] == 'C' && ALPHABET[12] == 'D' && ALPHABET[13] == 'E' &&
      ALPHABET[14] == 'F'
    ensures ALPHABET[15] == 'G' && ALPHABET[16] == 'H' && ALPHABET[17] == 'J' && ALPHABET[18] == 'K' &&
      ALPHABET[19] == 'L'
    ensures ALPHABET[20] == 'M' && ALPHABET[21] == 'N' && ALPHABET[22] == 'P' && ALPHABET[23] == 'Q' &&
      ALPHABET[24] == 'R'
    ensures ALPHABET[25] == 'S' && ALPHABET[26] == 'T' && ALPHABET[27] == 'U' && ALPHABET[28] == 'V' &&
      ALPHABET[29] == 'W'
  {
  }

  lemma SecondHalf()
    ensures |ALPHABET| == 58
    ensures ALPHABET[30] == 'X' && ALPHABET[31] == 'Y' && ALPHABET[32] == 'Z' && ALPHABET[33] == 'a' &&
      ALPHABET[34] == 'b'
    ensures ALPHABET[35] == 'c' && ALPHABET[36] == 'd' && ALPHABET[37] == 'e' && ALPHABET[38] == 'f' &&
      ALPHABET[39] == 'g'
    ensures ALPHABET[40] == 'h' && ALPHABET[41] == 'i' && ALPHABET[42] == 'j' && ALPHABET[43] == 'k' &&
      ALPHABET[44] == 'm'
    ensures ALPHABET[45] == 'n' && ALPHABET[46] == 'o' && ALPHABET[47] == 'p' && ALPHABET[48] == 'q' &&
      ALPHABET[49] == 'r'
    ensures ALPHABET[50] == 's' && ALPHABET[51] == 't' && ALPHABET[52] == 'u' && ALPHABET[53] == 'v' &&
      ALPHABET[54] == 'w'
    ensures ALPHABET[55] == 'x' && ALPHABET[56] == 'y' && ALPHABET[57] == 'z'
  {
  }

  lemma DigitOfChar(d: nat)
    requires d < 58
    ensures |ALPHABET| == 58 && Digit(ALPHABET[d]) == Some(d)
  {
    FirstHalf();
    SecondHalf();
    if d < 10 {
      assert d == 0 || d == 1 || d == 2 || d == 3 || d == 4 || d == 5 || d == 6 || d == 7 || d == 8 || d == 9;
    } else if d < 20 {
      assert d == 10 || d == 11 || d == 12 || d == 13 || d == 14 || d == 15 || d == 16 || d == 17 || d == 18 || d == 19;
    } else if d < 30 {
      assert d == 20 || d == 21 || d == 22 || d == 23 || d == 24 || d == 25 || d == 26 || d == 27 || d == 28 || d == 29;
    } else if d < 40 {
      assert d == 30 || d == 31 || d == 32 || d == 33 || d == 34 || d == 35 || d == 36 || d == 37 || d == 38 || d == 39;
    } else if d < 50 {
      assert d == 40 || d == 41 || d == 42 || d == 43 || d == 44 || d == 45 || d == 46 || d == 47 || d == 48 || d == 49;
    } else {
      assert d == 50 || d == 51 || d == 52 || d == 53 || d == 54 || d == 55 || d == 56 || d == 57;
    }
  }

  lemma CharOfDigit(c: char)
    requires Digit(c).Some?
    ensures |ALPHABET| == 58 && ALPHABET[Digit(c).value] == c
  {
    DigitOfChar(Digit(c).value);
  }

  /** `isspace` in the C locale. */
  predicate IsSpace(c: char)
  {
    c == ' ' || 9 <= c as nat <= 13
  }

  lemma NoSpace(c: char)
    requires Digit(c).Some?
    ensures !IsSpace(c) && c != '\0'
  {
  }

  predicate AllSpace(s: string)
  {
    forall i :: 0 <= i < |s| ==> IsSpace(s[i])
  }

  predicate AllDigits(s: string)
  {
    forall i :: 0 <= i < |s| ==> Digit(s[i]).Some?
  }

  function Chars(s: seq<nat>): (r: string)
    requires AreDigits(58, s)
    ensures |r| == |s|
  {
    seq(|s|, i requires 0 <= i < |s| => ALPHABET[s[i]])
  }

  function Values(s: string): (r: seq<nat>)
    requires AllDigits(s)
    ensures |r| == |s| && AreDigits(58, r)
  {
    seq(|s|, i requires 0 <= i < |s| => Digit(s[i]).value)
  }

  lemma ValuesOfChars(s: seq<nat>)
    requires AreDigits(58, s)
    ensures AllDigits(Chars(s)) && Values(Chars(s)) == s
  {
    hide Digit, ALPHABET;
    forall i | 0 <= i < |s|
      ensures Digit(Chars(s)[i]) == Some(s[i])
    {
      DigitOfChar(s[i]);
    }
  }

  lemma CharsOfValues(s: string)
    requires AllDigits(s)
    ensures Chars(Values(s)) == s
  {
    hide Digit;
    forall i | 0 <= i < |s|
      ensures ALPHABET[Digit(s[i]).value] == s[i]
    {
      CharOfDigit(s[i]);
    }
  }

  // ---------------------------------------------------------------- the codec

  function Encoded(data: seq<nat>): (s: string)
  {
    Chars(Transcoded(256, 58, data))
  }

  /** The longest vector whose length, with the sign byte and the four bytes of the length field, fits in an
      `int` is one byte shorter than this. */
  const LIMIT: nat := 0x7FFF_FFFB

  /** How many leading bytes of `data` reach the number, once its length has gone through 32 bits. */
  function Taken(data: seq<nat>): (t: nat)
    ensures t <= |data|
  {
    match SizeTaken(|data| + 1)
    case None => 0
    case Some(w) => if w == 0 then 0 else w - 1
  }

  /** What is left of `data`: the bytes that reach the number, and all leading zeros. */
  function Kept(data: seq<nat>): (r: seq<nat>)
    ensures r <= data
  {
    var k := LeadingZeros(data);
    data[..if Taken(data) < k then k else Taken(data)]
  }

  /** What the code prints. */
  function Printed(data: seq<nat>): (s: string)
  {
    Encoded(Kept(data))
  }

  /** The characters of a C string: up to the first NUL. */
  function Terminated(s: string): (r: string)
    ensures |r| <= |s|
  {
    if s == [] || s[0] == '\0' then [] else [s[0]] + Terminated(s[1..])
  }

  function Spaces(s: string): (n: nat)
    ensures n <= |s| && (forall i :: 0 <= i < n ==> IsSpace(s[i])) && (n < |s| ==> !IsSpace(s[n]))
  {
    if s != [] && IsSpace(s[0]) then 1 + Spaces(s[1..]) else 0
  }

  function Run(s: string): (n: nat)
    ensures n <= |s| && (forall i :: 0 <= i < n ==> Digit(s[i]).Some?) && (n < |s| ==> Digit(s[n]).None?)
  {
    if s != [] && Digit(s[0]).Some? then 1 + Run(s[1..]) else 0
  }

  /** The digits after the leading spaces, if only spaces follow them. */
  function Body(psz: string): (body: Option<string>)
    ensures body.Some? ==> AllDigits(body.value)
  {
    var s := psz[Spaces(psz)..];
    var n := Run(s);
    if Spaces(s[n..]) == |s| - n then Some(s[..n]) else None
  }

  function Decoded(str: string): (r: Option<seq<nat>>)
  {
    match Body(Terminated(str))
    case None => None
    case Some(body) => Some(Transcoded(58, 256, Values(body)))
  }

  /** Spaces, digits, spaces. */
  ghost predicate Splits(psz: string, a: string, body: string, z: string)
  {
    psz == a + body + z && AllSpace(a) && AllDigits(body) && AllSpace(z)
  }

  /** The decoder accepts exactly digits between optional spaces, and decodes those digits. */
  lemma Language(psz: string)
    ensures Body(psz).Some? <==> exists a, body, z :: Splits(psz, a, body, z)
    ensures forall a, body, z :: Splits(psz, a, body, z) && body != [] ==> Body(psz) == Some(body)
  {
    hide Digit, IsSpace;
    if Body(psz).Some? {
      var n := Spaces(psz);
      var s := psz[n..];
      var k := Run(s);
      assert s[k..][..|s| - k] == s[k..];
      assert psz == psz[..n] + s[..k] + s[k..];
      assert Splits(psz, psz[..n], s[..k], s[k..]);
    }
    forall a, body, z | Splits(psz, a, body, z)
      ensures Body(psz).Some? && (body != [] ==> Body(psz) == Some(body))
    {
      BodyOf(psz, a, body, z);
    }
  }

  lemma BodyOf(psz: string, a: string, body: string, z: string)
    requires Splits(psz, a, body, z)
    ensures Body(psz).Some? && (body != [] ==> Body(psz) == Some(body))
  {
    hide Digit, IsSpace;
    if body == [] {
      assert psz == a + z;
      SpacesAll(psz);
      assert psz[|psz|..] == [];
    } else {
      NoSpace(body[0]);
      assert psz == a + (body + z);
      SpacesOf(a, body + z);
      assert psz[|a|..] == body + z;
      if z != [] {
        SpaceIsNoDigit(z[0]);
      }
      RunOf(body, z);
      assert (body + z)[|body|..] == z && (body + z)[..|body|] == body;
      SpacesAll(z);
    }
  }

  lemma SpaceIsNoDigit(c: char)
    requires IsSpace(c)
    ensures Digit(c).None?
  {
  }

  lemma {:induction false} SpacesOf(a: string, t: string)
    requires AllSpace(a) && (t != [] ==> !IsSpace(t[0]))
    ensures Spaces(a + t) == |a|
  {
    if a == [] {
      assert a + t == t;
    } else {
      assert (a + t)[1..] == a[1..] + t;
      SpacesOf(a[1..], t);
    }
  }

  lemma SpacesAll(a: string)
    requires AllSpace(a)
    ensures Spaces(a) == |a|
  {
    assert a + [] == a;
    SpacesOf(a, []);
  }

  lemma {:induction false} RunOf(a: string, t: string)
    requires AllDigits(a) && (t != [] ==> Digit(t[0]).None?)
    ensures Run(a + t) == |a|
  {
    hide Digit;
    if a == [] {
      assert a + t == t;
    } else {
      assert (a + t)[1..] == a[1..] + t;
      RunOf(a[1..], t);
    }
  }

  lemma {:induction false} TerminatedDigits(s: string)
    requires AllDigits(s)
    ensures Terminated(s) == s
  {
    hide Digit;
    if s != [] {
      NoSpace(s[0]);
      TerminatedDigits(s[1..]);
    }
  }

  lemma DecodedDigits(s: string)
    requires AllDigits(s)
    ensures Decoded(s) == Some(Transcoded(58, 256, Values(s)))
  {
    hide Digit, Body, Transcoded;
    TerminatedDigits(s);
    assert s == [] + s + [];
    BodyOf(s, [], s, []);
    if s == [] {
      EmptyBody();
    }
  }

  lemma EmptyBody()
    ensures Body([]) == Some([])
  {
  }

  /** Decoding undoes encoding, leading zero bytes included. */
  lemma DecodeEncoded(data: seq<nat>)
    requires AreDigits(256, data)
    ensures Decoded(Encoded(data)) == Some(data)
  {
    hide Transcoded, Chars, Values, Digit;
    var s := Transcoded(256, 58, data);
    ValuesOfChars(s);
    DecodedDigits(Chars(s));
    TranscodedBack(256, 58, data);
  }

  /** Encoding undoes decoding on strings of digits. */
  lemma EncodeDecoded(s: string)
    requires AllDigits(s)
    ensures Decoded(s).Some? && Encoded(Decoded(s).value) == s
  {
    hide Transcoded, Chars, Values, Digit;
    DecodedDigits(s);
    CharsOfValues(s);
    TranscodedBack(58, 256, Values(s));
  }

  // ---------------------------------------------------------------- the loops

  /** `EncodeBase58`. */
  method EncodeBase58(data: seq<nat>) returns (str: string)
    requires AreDigits(256, data)
    ensures str == Printed(data)
  {
    hide Num, Rep, LeadingZeros, ALPHABET, FromMpi, Reversed, Chars, SizeTaken, Taken, Printed;
    var bn := new BigNum(0);
    bn.SetVch(Reversed(data) + [0]);
    PositiveVch(data);
    ghost var n := bn.v;
    ghost var digits: seq<nat> := [];
    str := "";
    NoChars();
    ReversedNothing();
    while bn.v > 0
      invariant fresh(bn) && bn.v >= 0
      invariant AreDigits(58, digits) && str == Chars(digits) && Rep(58, n) == Rep(58, bn.v) + Reversed(digits)
      decreases bn.v
    {
      var dv, rem := bn.v / 58, bn.v % 58;
      RepStep(bn.v);
      ReversedAppend(digits, rem);
      assert Rep(58, dv) + [rem] + Reversed(digits) == Rep(58, dv) + ([rem] + Reversed(digits));
      CharsAppend(digits, rem);
      bn.v := dv;
      digits := digits + [rem];
      str := str + [ALPHABET[rem]];
    }
    str := AppendZeros(data, str, digits);
    RepStep(0);
    ghost var zeros := LeadingZeros(data);
    ReversedPadded(digits, zeros);
    ReversedChars(digits + Zeros(zeros), str);
    str := seq(|str|, i requires 0 <= i < |str| => str[|str| - 1 - i]);
    assert Rep(58, n) == Reversed(digits);
    PrintedIs(data, n, Zeros(zeros) + Reversed(digits));
  }

  /** One `1` for each leading zero byte. */
  method AppendZeros(data: seq<nat>, s: string, ghost digits: seq<nat>) returns (str: string)
    requires AreDigits(58, digits) && s == Chars(digits)
    ensures AreDigits(58, digits + Zeros(LeadingZeros(data))) && str == Chars(digits + Zeros(LeadingZeros(data)))
  {
    hide LeadingZeros, ALPHABET, Chars;
    str := s;
    var p := 0;
    LeadingFacts(data);
    TableSize();
    assert digits + Zeros(0) == digits;
    while p < |data| && data[p] == 0
      invariant 0 <= p <= LeadingZeros(data) && AreDigits(58, digits + Zeros(p)) && str == Chars(digits + Zeros(p))
    {
      CharsAppend(digits + Zeros(p), 0);
      str := str + [ALPHABET[0]];
      assert digits + Zeros(p + 1) == digits + Zeros(p) + [0];
      p := p + 1;
    }
  }

  lemma NoChars()
    ensures Chars([]) == []
  {
  }

  lemma CharsAppend(s: seq<nat>, d: nat)
    requires AreDigits(58, s) && d < 58
    ensures |ALPHABET| == 58 && AreDigits(58, s + [d]) && Chars(s + [d]) == Chars(s) + [ALPHABET[d]]
  {
    TableSize();
    hide ALPHABET;
  }

  lemma ReversedNothing()
    ensures Reversed([]) == []
  {
  }

  lemma KeptFacts(data: seq<nat>)
    ensures LeadingZeros(Kept(data)) == LeadingZeros(data) && Num(256, Kept(data)) == Num(256, data[..Taken(data)])
  {
    hide Num, LeadingZeros, Taken;
    var k, t := LeadingZeros(data), Taken(data);
    var r := Kept(data);
    LeadingFacts(data);
    assert r == Zeros(k) + r[k..];
    LeadingPadded(k, r[k..]);
    if t < k {
      assert r == Zeros(k) + [] && data[..t] == Zeros(t) + [];
      NumPadded(256, k, []);
      NumPadded(256, t, []);
    }
  }

  lemma PrintedIs(data: seq<nat>, n: nat, digits: seq<nat>)
    requires n == Num(256, data[..Taken(data)])
    requires digits == Zeros(LeadingZeros(data)) + Rep(58, n) && AreDigits(58, digits)
    ensures Chars(digits) == Printed(data)
  {
    hide Chars, Num, LeadingZeros, Taken, Kept;
    KeptFacts(data);
  }

  lemma TableSize()
    ensures |ALPHABET| == 58
  {
  }

  /** The zero byte at the end keeps the number positive. */
  lemma PositiveVch(data: seq<nat>)
    ensures var w := SizeTaken(|data| + 1);
      (if w.Some? then FromMpi(Reversed(Reversed(data) + [0])[..w.value]) else 0) == Num(256, data[..Taken(data)])
  {
    hide Num, SizeTaken;
    assert Reversed(Reversed(data) + [0]) == [0] + data;
    var t := data[..Taken(data)];
    NumNothing(256);
    if SizeTaken(|data| + 1).Some? && SizeTaken(|data| + 1).value > 0 {
      assert ([0] + data)[..SizeTaken(|data| + 1).value] == [0] + t == Zeros(1) + t;
      NumPadded(256, 1, t);
    } else {
      assert t == [];
    }
  }

  lemma RepStep(n: nat)
    ensures n > 0 ==> Rep(58, n) == Rep(58, n / 58) + [n % 58]
    ensures Rep(58, 0) == []
  {
  }

  lemma ReversedAppend(s: seq<nat>, x: nat)
    ensures Reversed(s + [x]) == [x] + Reversed(s)
  {
  }

  lemma ReversedPadded(s: seq<nat>, k: nat)
    ensures Reversed(s + Zeros(k)) == Zeros(k) + Reversed(s)
  {
  }

  lemma LeadingFacts(s: seq<nat>)
    ensures var k := LeadingZeros(s);
            (forall i :: 0 <= i < k ==> s[i] == 0) && (k < |s| ==> s[k] != 0)
  {
    hide LeadingZeros;
    LeadingSplit(s);
    var k := LeadingZeros(s);
    forall i | 0 <= i < k
      ensures s[i] == 0
    {
      assert s[i] == (Zeros(k) + s[k..])[i];
    }
  }

  lemma ReversedChars(digits: seq<nat>, str: string)
    requires AreDigits(58, digits) && str == Chars(digits)
    ensures AreDigits(58, Reversed(digits))
    ensures seq(|str|, i requires 0 <= i < |str| => str[|str| - 1 - i]) == Chars(Reversed(digits))
  {
    hide ALPHABET;
  }

  /** `strchr` on the alphabet. */
  method Strchr(c: char) returns (d: Option<nat>)
    ensures d == Digit(c)
  {
    hide Digit, ALPHABET;
    TableSize();
    var i := 0;
    while i < |ALPHABET|
      invariant 0 <= i <= |ALPHABET|
      invariant forall k :: 0 <= k < i ==> ALPHABET[k] != c
    {
      if ALPHABET[i] == c {
        DigitOfChar(i);
        return Some(i);
      }
      i := i + 1;
    }
    if Digit(c).Some? {
      CharOfDigit(c);
    }
    return None;
  }

  method SkipSpaces(s: string, from: nat) returns (i: nat)
    requires from <= |s|
    ensures i == from + Spaces(s[from..])
  {
    hide IsSpace;
    i := from;
    while i < |s| && IsSpace(s[i])
      invariant from <= i <= |s| && i + Spaces(s[i..]) == from + Spaces(s[from..])
    {
      assert s[i..][1..] == s[i + 1..];
      i := i + 1;
    }
  }

  /** `DecodeBase58`. */
  method DecodeBase58(str: string) returns (ok: bool, ret: seq<nat>)
    ensures ok <==> Decoded(str).Some?
    ensures ret == if ok then Decoded(str).value else []
  {
    hide Digit, IsSpace, Num, Rep, LeadingZeros, ToMpi, Reversed, Spaces, Run, ReadSoFar, Decoded, Terminated;
    var psz := Terminated(str);
    var i := SkipSpaces(psz, 0);
    assert psz[0..] == psz;
    psz := psz[i..];
    var bn := new BigNum(0);
    var p := 0;
    ReadNothing(psz);
    while p < |psz|
      invariant fresh(bn) && 0 <= p <= |psz| && ReadSoFar(psz, p, bn.v)
    {
      var d := Strchr(psz[p]);
      if d.None? {
        var q := SkipSpaces(psz, p);
        if q != |psz| {
          ReadFails(str, psz, p, bn.v);
          return false, [];
        }
        break;
      }
      ReadNext(psz, p, bn.v);
      bn.v := bn.v * 58 + d.value;
      p := p + 1;
    }
    NothingLeft(psz, p);
    ReadAll(str, psz, p, bn.v);
    var vchTmp := bn.GetVch();
    TrimmedVch(bn.v);
    if |vchTmp| >= 2 && vchTmp[|vchTmp| - 1] == 0 && vchTmp[|vchTmp| - 2] >= 0x80 {
      vchTmp := vchTmp[..|vchTmp| - 1];
    }
    var zeros := CountOnes(psz, psz[..p]);
    ok, ret := true, Zeros(zeros) + Reversed(vchTmp);
  }

  /** The first `p` characters are digits, and `v` is their value. */
  ghost predicate ReadSoFar(psz: string, p: nat, v: int)
  {
    p <= |psz| && AllDigits(psz[..p]) && v == Num(58, Values(psz[..p]))
  }

  lemma ReadNothing(psz: string)
    ensures ReadSoFar(psz, 0, 0)
  {
    assert psz[..0] == [];
  }

  lemma ReadNext(psz: string, p: nat, v: int)
    requires p < |psz| && ReadSoFar(psz, p, v) && Digit(psz[p]).Some?
    ensures v >= 0 && ReadSoFar(psz, p + 1, v * 58 + Digit(psz[p]).value)
  {
    hide Digit, Num;
    assert psz[..p + 1] == psz[..p] + [psz[p]];
    NumAppend(58, Values(psz[..p]), Digit(psz[p]).value);
    assert Values(psz[..p + 1]) == Values(psz[..p]) + [Digit(psz[p]).value];
  }

  /** The digits end where the loop stops. */
  lemma RunEnds(psz: string, p: nat, v: int)
    requires ReadSoFar(psz, p, v) && (p == |psz| || Digit(psz[p]).None?)
    ensures Run(psz) == p
  {
    hide Digit, Run;
    var t := psz[..p];
    assert forall i :: 0 <= i < p ==> t[i] == psz[i];
  }

  lemma ReadFails(str: string, psz: string, p: nat, v: int)
    requires psz == Terminated(str)[Spaces(Terminated(str))..]
    requires p < |psz| && ReadSoFar(psz, p, v) && Digit(psz[p]).None? && p + Spaces(psz[p..]) != |psz|
    ensures Decoded(str).None?
  {
    hide Digit, Run, Spaces, Terminated;
    RunEnds(psz, p, v);
  }

  lemma ReadAll(str: string, psz: string, p: nat, v: int)
    requires psz == Terminated(str)[Spaces(Terminated(str))..]
    requires ReadSoFar(psz, p, v) && (p == |psz| || Digit(psz[p]).None?) && p + Spaces(psz[p..]) == |psz|
    ensures v >= 0 && AllDigits(psz[..p])
    ensures Decoded(str) == Some(Zeros(LeadingZeros(Values(psz[..p]))) + Rep(256, v))
  {
    hide Digit, Run, Spaces, Terminated;
    RunEnds(psz, p, v);
  }

  /** The ones in front: the leading zeros of the digits `t`. */
  method CountOnes(psz: string, ghost t: string) returns (zeros: nat)
    requires AllDigits(t) && |t| <= |psz| && (forall i :: 0 <= i < |t| ==> t[i] == psz[i])
    requires |t| < |psz| ==> Digit(psz[|t|]).None?
    ensures zeros == LeadingZeros(Values(t))
  {
    hide LeadingZeros, Values, Digit, AllDigits;
    DigitsLeadingOnes(t);
    ghost var k := LeadingZeros(Values(t));
    if k < |psz| {
      OneIsZero(psz[k]);
    }
    zeros := 0;
    while zeros < |psz| && psz[zeros] == '1'
      invariant 0 <= zeros <= k
    {
      zeros := zeros + 1;
    }
  }

  lemma DigitsLeadingOnes(t: string)
    requires AllDigits(t)
    ensures var k := LeadingZeros(Values(t));
            k <= |t| && (forall i :: 0 <= i < k ==> t[i] == '1') && (k < |t| ==> t[k] != '1')
  {
    hide LeadingZeros, Values, Digit;
    var k := LeadingZeros(Values(t));
    LeadingFacts(Values(t));
    forall i | 0 <= i < k
      ensures t[i] == '1'
    {
      ValueAt(t, i);
      OneIsZero(t[i]);
    }
    if k < |t| {
      ValueAt(t, k);
      OneIsZero(t[k]);
    }
  }

  lemma ValueAt(t: string, i: nat)
    requires AllDigits(t) && i < |t|
    ensures Digit(t[i]) == Some(Values(t)[i])
  {
    hide Digit;
  }

  lemma OneIsZero(c: char)
    ensures Digit(c) == Some(0) <==> c == '1'
  {
  }

  lemma NothingLeft(psz: string, p: nat)
    ensures p == |psz| ==> Spaces(psz[p..]) == 0
  {
  }

  /** The sign byte is there exactly when the top bit of the number is set. */
  lemma TrimmedVch(n: nat)
    ensures var vch := Reversed(ToMpi(n));
            var trimmed :=
              if |vch| >= 2 && vch[|vch| - 1] == 0 && vch[|vch| - 2] >= 0x80 then vch[..|vch| - 1] else vch;
            Reversed(trimmed) == Rep(256, n)
  {
    hide Rep;
    var m := Rep(256, n);
    ReversedTwice(m);
    if m != [] && m[0] >= 128 {
      assert Reversed([0] + m) == Reversed(m) + [0];
    }
  }

  // ---------------------------------------------------------------- checksums and versions

  /** A hash of at least four bytes. */
  ghost predicate IsHash(h: seq<nat> -> seq<nat>)
  {
    forall v :: |h(v)| >= 4 && AreDigits(256, h(v))
  }

  function PrintedCheck(h: seq<nat> -> seq<nat>, v: seq<nat>): (s: string)
    requires |h(v)| >= 4
  {
    Printed(v + h(v)[..4])
  }

  function DecodedCheck(h: seq<nat> -> seq<nat>, str: string): (r: Option<seq<nat>>)
  {
    match Decoded(str)
    case None => None
    case Some(v) =>
      if |v| < 4 then None
      else
        var payload := v[..|v| - 4];
        if |h(payload)| < 4 || h(payload)[..4] != v[|v| - 4..] then None else Some(payload)
  }

  lemma CheckAccepts(h: seq<nat> -> seq<nat>, str: string, v: seq<nat>)
    requires IsHash(h)
    ensures DecodedCheck(h, str) == Some(v) <==> Decoded(str) == Some(v + h(v)[..4])
  {
    hide Decoded;
    var w := v + h(v)[..4];
    assert w[..|w| - 4] == v && w[|w| - 4..] == h(v)[..4];
    if DecodedCheck(h, str) == Some(v) {
      var r := Decoded(str).value;
      assert r == r[..|r| - 4] + r[|r| - 4..];
    }
  }

  lemma KeptAll(data: seq<nat>)
    ensures Kept(data) == data <==> |data| < LIMIT || LeadingZeros(data) == |data|
  {
    hide LeadingZeros;
    var t := Taken(data);
    if |data| < LIMIT {
      Arith.SmallMod(|data| + 1, 0x1_0000_0000);
    } else {
      assert t < LIMIT;
    }
  }

  /** What the loops print reads as the bytes kept; these are all exactly if the length fits, or there is
      nothing but zeros to print. */
  lemma PrintedReadable(data: seq<nat>)
    requires AreDigits(256, data)
    ensures Decoded(Printed(data)) == Some(Kept(data))
    ensures Decoded(Printed(data)) == Some(data) <==> |data| < LIMIT || LeadingZeros(data) == |data|
  {
    hide Decoded, Encoded, LeadingZeros, Kept;
    DecodeEncoded(Kept(data));
    KeptAll(data);
  }

  /** What is lost: a first byte that is not zero does not help 2^31 bytes, of which nothing is left, nor
      2^32 + 2, of which two are. */
  lemma LengthsWrap(data: seq<nat>)
    requires AreDigits(256, data) && data != [] && data[0] != 0
    ensures |data| == 0x8000_0000 ==> Decoded(Printed(data)) == Some([])
    ensures |data| == 0x1_0000_0002 ==> Decoded(Printed(data)) == Some(data[..2])
  {
    hide Decoded, Printed;
    PrintedReadable(data);
  }

  /** So is the checksummed form. */
  lemma CheckRoundTrip(h: seq<nat> -> seq<nat>, v: seq<nat>)
    requires IsHash(h) && AreDigits(256, v)
    ensures var w := v + h(v)[..4];
      DecodedCheck(h, PrintedCheck(h, v)) == Some(v) <==> |w| < LIMIT || LeadingZeros(w) == |w|
  {
    hide Decoded, Printed, DecodedCheck;
    PrintedReadable(v + h(v)[..4]);
    CheckAccepts(h, PrintedCheck(h, v), v);
  }

  method EncodeBase58Check(h: seq<nat> -> seq<nat>, v: seq<nat>) returns (str: string)
    requires IsHash(h) && AreDigits(256, v)
    ensures str == PrintedCheck(h, v)
  {
    hide Printed;
    str := EncodeBase58(v + h(v)[..4]);
  }

  method DecodeBase58Check(h: seq<nat> -> seq<nat>, str: string) returns (ok: bool, ret: seq<nat>)
    requires IsHash(h)
    ensures ok <==> DecodedCheck(h, str).Some?
    ensures ret == if ok then DecodedCheck(h, str).value else []
  {
    hide Decoded;
    ok, ret := DecodeBase58(str);
    if !ok {
      return false, [];
    }
    if |ret| < 4 {
      return false, [];
    }
    if h(ret[..|ret| - 4])[..4] != ret[|ret| - 4..] {
      return false, [];
    }
    ret := ret[..|ret| - 4];
  }

  /** `CBase58Data`: a version byte and data. */
  class Base58Data {
    const h: seq<nat> -> seq<nat>
    var nVersion: nat
    var vchData: seq<nat>

    constructor (h: seq<nat> -> seq<nat>)
      ensures this.h == h && nVersion == 0 && vchData == []
    {
      this.h := h;
      nVersion, vchData := 0, [];
    }

    method SetString(str: string) returns (ok: bool)
      requires IsHash(h)
      modifies this
      ensures ok <==> DecodedCheck(h, str).Some? && DecodedCheck(h, str).value != []
      ensures if ok then [nVersion] + vchData == DecodedCheck(h, str).value else nVersion == 0 && vchData == []
    {
      hide DecodedCheck;
      var decoded, vchTemp := DecodeBase58Check(h, str);
      if vchTemp == [] {
        nVersion, vchData := 0, [];
        return false;
      }
      nVersion, vchData := vchTemp[0], vchTemp[1..];
      return true;
    }

    method ToString() returns (str: string)
      requires IsHash(h) && nVersion < 256 && AreDigits(256, vchData)
      ensures str == PrintedCheck(h, [nVersion] + vchData)
    {
      hide PrintedCheck;
      str := EncodeBase58Check(h, [nVersion] + vchData);
    }
  }

  /** A printed version and data are read back exactly if their length fits, or all bytes printed are zero. */
  method PrintThenRead(a: Base58Data, b: Base58Data) returns (ok: bool)
    requires IsHash(a.h) && a.h == b.h && a != b && a.nVersion < 256 && AreDigits(256, a.vchData)
    modifies b
    ensures var v := [a.nVersion] + a.vchData;
      var w := v + a.h(v)[..4];
      ok && b.nVersion == a.nVersion && b.vchData == a.vchData <==> |w| < LIMIT || LeadingZeros(w) == |w|
  {
    hide PrintedCheck, DecodedCheck, LeadingZeros;
    ghost var v := [a.nVersion] + a.vchData;
    CheckRoundTrip(a.h, v);
    var str := a.ToString();
    ok := b.SetString(str);
    assert ([b.nVersion] + b.vchData)[1..] == b.vchData && v[1..] == a.vchData;
    assert ([b.nVersion] + b.vchData)[0] == b.nVersion && v[0] == a.nVersion;
  }
}
