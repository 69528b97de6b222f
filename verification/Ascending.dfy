/** The order in which `std::set<int>` and `std::map<int, ...>` are traversed. */
module Ascending {

  ghost function Pick<T>(s: set<T>): (y: T)
    requires s != {}
    ensures y in s
  {
    var y :| y in s;
    y
  }

  ghost function Outside<T(!new)>(a: set<T>, b: set<T>): (y: T)
    requires !(a <= b)
    ensures y in a && y !in b
  {
    var y :| y in a && y !in b;
    y
  }

  lemma SameSet<T(!new)>(a: set<T>, b: set<T>)
    requires forall x :: x in a <==> x in b
    ensures a == b
  {
  }

  lemma NoMembers<T(!new)>(a: set<T>)
    requires forall x :: x !in a
    ensures a == {}
  {
  }

  lemma {:induction false} LeastExists(s: set<int>)
    requires s != {}
    ensures exists m :: m in s && forall x :: x in s ==> m <= x
  {
    var y := Pick(s);
    var rest := s - {y};
    assert forall x :: x in s ==> x == y || x in rest;
    if rest != {} {
      LeastExists(rest);
      var m :| m in rest && forall x :: x in rest ==> m <= x;
      if m <= y { assert m in s; } else { assert y in s; }
    }
  }

  function Least(s: set<int>): (m: int)
    requires s != {}
    ensures m in s
    ensures forall x :: x in s ==> m <= x
  {
    LeastExists(s);
    var m :| m in s && forall x :: x in s ==> m <= x;
    m
  }

  /** The elements of `s`, each once, in increasing order. */
  function Sequence(s: set<int>): (q: seq<int>)
    ensures |q| == |s|
    ensures forall x :: x in q <==> x in s
    ensures forall i, j :: 0 <= i < j < |q| ==> q[i] < q[j]
  {
    if s == {} then [] else
      var m := Least(s);
      [m] + Sequence(s - {m})
  }

  /** The first `i` elements of a traversal. */
  ghost function Upto(q: seq<int>, i: nat): (done: set<int>)
    requires i <= |q|
    ensures forall x :: x in done ==> x in q
    ensures forall j :: 0 <= j < i ==> q[j] in done
  {
    if i == 0 then {} else Upto(q, i - 1) + {q[i - 1]}
  }

  lemma UptoFresh(s: set<int>, i: nat)
    requires i < |Sequence(s)|
    ensures Sequence(s)[i] in s && Sequence(s)[i] !in Upto(Sequence(s), i)
  {
    UptoBelow(Sequence(s), i, i);
  }

  lemma {:induction false} UptoBelow(q: seq<int>, i: nat, k: nat)
    requires i <= k < |q| && forall a, b :: 0 <= a < b < |q| ==> q[a] < q[b]
    ensures q[k] !in Upto(q, i)
  {
    if i > 0 {
      UptoBelow(q, i - 1, k);
    }
  }

  lemma UptoAll(s: set<int>)
    ensures Upto(Sequence(s), |Sequence(s)|) == s
  {
    var q := Sequence(s);
    forall x | x in s ensures x in Upto(q, |q|) {
      assert x in q;
    }
  }
}
