/** The executable consistency check `Check_` (src/addrman.cpp), and that it accepts exactly the sound tables. */
module AddrCheck {
  import opened AddrTypes
  import opened AddrState
  import Ascending

  /** How often `id` occurs in the tried buckets. */
  ghost function Occurrences(tried: seq<seq<int>>, id: int): (n: nat)
  {
    if tried == [] then 0 else Occurrences(tried[..|tried| - 1], id) + multiset(tried[|tried| - 1])[id]
  }

  lemma {:induction false} OccurrencesPrefix(tried: seq<seq<int>>, m: int, id: int)
    requires 0 <= m <= |tried|
    ensures Occurrences(tried[..m], id) <= Occurrences(tried, id)
    decreases |tried| - m
  {
    if m < |tried| {
      assert tried[..m + 1][..m] == tried[..m];
      OccurrencesPrefix(tried, m + 1, id);
    } else {
      assert tried[..m] == tried;
    }
  }

  lemma {:induction false} HoldingPrefix(news: seq<set<int>>, m: int, id: int)
    requires 0 <= m <= |news|
    ensures Holding(news[..m], id) <= Holding(news, id)
    decreases |news| - m
  {
    if m < |news| {
      assert news[..m + 1][..m] == news[..m];
      HoldingPrefix(news, m + 1, id);
    } else {
      assert news[..m] == news;
    }
  }

  /** What `mapAddr[info]` yields: an absent key reads as 0. */
  function IdOf(addr: map<NetAddr, int>, net: NetAddr): (id: int)
  {
    if net in addr then addr[net] else 0
  }

  predicate EntrySound(s: State, id: int)
    requires id in s.info
  {
    var x := s.info[id];
    && (if x.inTried then x.lastSuccess != 0 && x.refCount == 0 else 1 <= x.refCount <= NEW_BUCKETS_PER_ADDRESS)
    && IdOf(s.addr, x.service.net) == id
    && 0 <= x.randomPos < |s.random| && s.random[x.randomPos] == id
    && x.lastTry >= 0
    && x.lastSuccess >= 0
  }

  predicate EntriesSound(s: State)
  {
    forall id :: id in s.info ==> EntrySound(s, id)
  }

  /** The tables are sound: counters, entries, and the number of occurrences of every id in the buckets. */
  ghost predicate Sound(s: State)
  {
    && |s.random| == s.nTried + s.nNew
    && EntriesSound(s)
    && |TriedIds(s.info)| == s.nTried
    && |NewIds(s.info)| == s.nNew
    && (forall id :: Occurrences(s.tried, id) == if id in s.info && s.info[id].inTried then 1 else 0)
    && (forall id :: Holding(s.news, id) == if id in s.info && !s.info[id].inTried then s.info[id].refCount else 0)
  }

  /** What the first loop reports for one entry. */
  function EntryError(s: State, id: int): (err: int)
    requires id in s.info
    ensures err == 0 <==> EntrySound(s, id)
  {
    var x := s.info[id];
    if x.inTried && x.lastSuccess == 0 then -1
    else if x.inTried && x.refCount != 0 then -2
    else if !x.inTried && (x.refCount < 0 || x.refCount > NEW_BUCKETS_PER_ADDRESS) then -3
    else if !x.inTried && x.refCount == 0 then -4
    else if IdOf(s.addr, x.service.net) != id then -5
    else if x.randomPos < 0 || x.randomPos >= |s.random| || s.random[x.randomPos] != id then -14
    else if x.lastTry < 0 then -6
    else if x.lastSuccess < 0 then -8
    else 0
  }

  /** The entries of `done` are sound and split into the tried ids and the reference counts of the others. */
  ghost predicate Sifted(s: State, done: set<int>, setTried: set<int>, mapNew: map<int, int>)
  {
    && (forall id :: id in done ==> id in s.info && EntrySound(s, id))
    && (forall id :: id in setTried <==> id in done && id in s.info && s.info[id].inTried)
    && (forall id :: id in mapNew <==> id in done && id in s.info && !s.info[id].inTried)
    && (forall id :: id in mapNew ==> mapNew[id] == s.info[id].refCount)
  }

  lemma SiftedNext(s: State, done: set<int>, setTried: set<int>, mapNew: map<int, int>, n: int)
    requires Sifted(s, done, setTried, mapNew) && n in s.info && EntrySound(s, n)
    ensures s.info[n].inTried ==> Sifted(s, done + {n}, setTried + {n}, mapNew)
    ensures !s.info[n].inTried ==> Sifted(s, done + {n}, setTried, mapNew[n := s.info[n].refCount])
  {
    hide EntrySound;
  }

  lemma SiftedAll(s: State, setTried: set<int>, mapNew: map<int, int>)
    requires Sifted(s, s.info.Keys, setTried, mapNew)
    ensures setTried == TriedIds(s.info) && mapNew.Keys == NewIds(s.info)
    ensures forall id :: id in mapNew ==> id in s.info && mapNew[id] == s.info[id].refCount
  {
    hide EntrySound;
    assert forall id :: id in s.info <==> id in s.info.Keys;
    forall id ensures id in setTried <==> id in TriedIds(s.info) { }
    Ascending.SameSet(setTried, TriedIds(s.info));
    assert forall id :: id in mapNew <==> id in NewIds(s.info);
  }

  /** First loop: the entries themselves. Returns the tried ids and the reference counts of the others. */
  method CheckEntries(s: State) returns (err: int, setTried: set<int>, mapNew: map<int, int>)
    ensures err == 0 <==> EntriesSound(s)
    ensures err == 0 ==> Sifted(s, s.info.Keys, setTried, mapNew)
  {
    hide EntrySound, EntriesSound, Sifted;
    ghost var bad: int;
    err, setTried, mapNew, bad := Sift(s, s.info.Keys);
    if err == 0 {
      SiftedSound(s, setTried, mapNew);
    } else {
      OneUnsound(s, bad);
    }
  }

  method Sift(s: State, ids: set<int>) returns (err: int, setTried: set<int>, mapNew: map<int, int>, ghost bad: int)
    requires forall id :: id in ids ==> id in s.info
    ensures err == 0 ==> Sifted(s, ids, setTried, mapNew)
    ensures err != 0 ==> bad in ids && !EntrySound(s, bad)
  {
    hide EntrySound, EntryError, Ascending.Sequence, Sifted;
    var order := Ascending.Sequence(ids);
    setTried, mapNew, bad := {}, map[], 0;
    SiftedNone(s);
    var i := 0;
    while i < |order|
      invariant 0 <= i <= |order|
      invariant Sifted(s, Ascending.Upto(order, i), setTried, mapNew)
    {
      Ascending.UptoFresh(ids, i);
      var n := order[i];
      err := EntryError(s, n);
      if err != 0 {
        bad := n;
        return;
      }
      SiftedNext(s, Ascending.Upto(order, i), setTried, mapNew, n);
      if s.info[n].inTried {
        setTried := setTried + {n};
      } else {
        mapNew := mapNew[n := s.info[n].refCount];
      }
      i := i + 1;
    }
    err := 0;
    Ascending.UptoAll(ids);
  }

  lemma SiftedSound(s: State, setTried: set<int>, mapNew: map<int, int>)
    requires Sifted(s, s.info.Keys, setTried, mapNew)
    ensures EntriesSound(s)
  {
    hide EntrySound;
    assert forall id :: id in s.info ==> id in s.info.Keys;
  }

  lemma OneUnsound(s: State, n: int)
    requires n in s.info && !EntrySound(s, n)
    ensures !EntriesSound(s)
  {
  }

  lemma SiftedNone(s: State)
    ensures Sifted(s, {}, {}, map[])
  {
  }

  lemma MultisetAppend(q: seq<int>, i: int, id: int)
    requires 0 <= i < |q|
    ensures multiset(q[..i + 1])[id] == multiset(q[..i])[id] + if id == q[i] then 1 else 0
    ensures multiset(q)[id] >= multiset(q[..i + 1])[id]
  {
    assert q[..i + 1] == q[..i] + [q[i]];
    assert q == q[..i + 1] + q[i + 1..];
  }

  /** One tried bucket: every id in it is struck off, and must not have been struck off before. */
  method StrikeTried(q: seq<int>, before: set<int>) returns (ok: bool, left: set<int>)
    ensures ok <==> forall id :: multiset(q)[id] <= if id in before then 1 else 0
    ensures ok ==> left <= before && forall id :: multiset(q)[id] == if id in before && id !in left then 1 else 0
  {
    left := before;
    var i := 0;
    while i < |q|
      invariant 0 <= i <= |q| && left <= before
      invariant forall id :: multiset(q[..i])[id] == if id in before && id !in left then 1 else 0
    {
      forall id ensures multiset(q[..i + 1])[id] == multiset(q[..i])[id] + (if id == q[i] then 1 else 0)
                     && multiset(q)[id] >= multiset(q[..i + 1])[id] {
        MultisetAppend(q, i, id);
      }
      var x := q[i];
      if x !in left {
        assert multiset(q)[x] > if x in before then 1 else 0;
        return false, left;
      }
      left := left - {x};
      i := i + 1;
    }
    assert q[..i] == q;
    ok := true;
  }

  /** `left` is `before` with one reference used up by each member of `done`. */
  ghost predicate UsedUp(before: map<int, int>, done: set<int>, left: map<int, int>)
  {
    && (forall id :: id in left <==> id in before && !(id in done && before[id] == 1))
    && (forall id :: id in left ==> left[id] == before[id] - if id in done then 1 else 0)
  }

  /** One new bucket: every id in it uses up one reference, and must have one left. */
  method StrikeNew(bucket: set<int>, before: map<int, int>) returns (ok: bool, left: map<int, int>)
    ensures ok <==> bucket <= before.Keys
    ensures ok ==> UsedUp(before, bucket, left)
  {
    hide Ascending.Sequence, UsedUp;
    left := before;
    var order := Ascending.Sequence(bucket);
    UsedUpNone(before);
    var i := 0;
    while i < |order|
      invariant 0 <= i <= |order|
      invariant Ascending.Upto(order, i) <= before.Keys
      invariant UsedUp(before, Ascending.Upto(order, i), left)
    {
      Ascending.UptoFresh(bucket, i);
      var id := order[i];
      UsedUpNext(before, Ascending.Upto(order, i), left, id);
      if id !in left {
        return false, left;
      }
      left := left[id := left[id] - 1];
      if left[id] == 0 {
        left := left - {id};
      }
      i := i + 1;
    }
    Ascending.UptoAll(bucket);
    ok := true;
  }

  lemma UsedUpNone(before: map<int, int>)
    ensures UsedUp(before, {}, before)
  {
  }

  lemma UsedUpNext(before: map<int, int>, done: set<int>, left: map<int, int>, id: int)
    requires UsedUp(before, done, left) && id !in done
    ensures id in left <==> id in before
    ensures id in left && left[id] == 1 ==> UsedUp(before, done + {id}, left[id := left[id] - 1] - {id})
    ensures id in left && left[id] != 1 ==> UsedUp(before, done + {id}, left[id := left[id] - 1])
  {
  }

  ghost predicate TriedWithin(tried: seq<seq<int>>, ids: set<int>)
  {
    forall id :: Occurrences(tried, id) <= if id in ids then 1 else 0
  }

  /** `left` are the members of `ids` that have not occurred; the others occurred once. */
  ghost predicate TriedStruck(tried: seq<seq<int>>, ids: set<int>, left: set<int>)
  {
    left <= ids && forall id :: Occurrences(tried, id) == if id in ids && id !in left then 1 else 0
  }

  lemma TriedStruckNext(tried: seq<seq<int>>, n: int, ids: set<int>, left: set<int>, ok: bool, left': set<int>)
    requires 0 <= n < |tried| && TriedStruck(tried[..n], ids, left)
    requires ok <==> forall id :: multiset(tried[n])[id] <= if id in left then 1 else 0
    requires ok ==> left' <= left && forall id :: multiset(tried[n])[id] == if id in left && id !in left' then 1 else 0
    ensures if ok then TriedStruck(tried[..n + 1], ids, left') else !TriedWithin(tried, ids)
  {
    forall id ensures Occurrences(tried[..n + 1], id) == Occurrences(tried[..n], id) + multiset(tried[n])[id] {
      assert tried[..n + 1][..n] == tried[..n];
    }
    if !ok {
      var id :| multiset(tried[n])[id] > if id in left then 1 else 0;
      OccurrencesPrefix(tried, n + 1, id);
    }
  }

  method StrikeAllTried(tried: seq<seq<int>>, ids: set<int>) returns (ok: bool, left: set<int>)
    ensures ok <==> TriedWithin(tried, ids)
    ensures ok ==> TriedStruck(tried, ids, left)
  {
    hide TriedStruck, TriedWithin;
    left := ids;
    TriedStruckNone(ids);
    var n := 0;
    while n < |tried|
      invariant 0 <= n <= |tried| && TriedStruck(tried[..n], ids, left)
    {
      var left';
      ok, left' := StrikeTried(tried[n], left);
      TriedStruckNext(tried, n, ids, left, ok, left');
      if !ok {
        return;
      }
      left := left';
      n := n + 1;
    }
    assert tried[..n] == tried;
    ok := true;
    TriedStruckWithin(tried, ids, left);
  }

  lemma TriedStruckNone(ids: set<int>)
    ensures TriedStruck([][..0], ids, ids)
  {
  }

  lemma TriedStruckWithin(tried: seq<seq<int>>, ids: set<int>, left: set<int>)
    requires TriedStruck(tried, ids, left)
    ensures TriedWithin(tried, ids)
  {
  }

  ghost predicate NewWithin(news: seq<set<int>>, refs: map<int, int>)
  {
    forall id :: Holding(news, id) <= if id in refs then refs[id] else 0
  }

  /** `left` holds the references that no bucket has used up. */
  ghost predicate NewStruck(news: seq<set<int>>, refs: map<int, int>, left: map<int, int>)
  {
    && NewWithin(news, refs)
    && (forall id :: id in left <==> id in refs && refs[id] > Holding(news, id))
    && (forall id :: id in left ==> left[id] == refs[id] - Holding(news, id))
  }

  lemma NewStruckNext(news: seq<set<int>>, n: int, refs: map<int, int>, left: map<int, int>, ok: bool,
      left': map<int, int>)
    requires 0 <= n < |news| && NewStruck(news[..n], refs, left)
    requires ok <==> news[n] <= left.Keys
    requires ok ==> UsedUp(left, news[n], left')
    ensures if ok then NewStruck(news[..n + 1], refs, left') else !NewWithin(news, refs)
  {
    forall id ensures Holding(news[..n + 1], id) == Holding(news[..n], id) + if id in news[n] then 1 else 0 {
      assert news[..n + 1][..n] == news[..n];
    }
    if !ok {
      var id := Ascending.Outside(news[n], left.Keys);
      HoldingPrefix(news, n + 1, id);
    }
  }

  method StrikeAllNew(news: seq<set<int>>, refs: map<int, int>) returns (ok: bool, left: map<int, int>)
    requires forall id :: id in refs ==> refs[id] > 0
    ensures ok <==> NewWithin(news, refs)
    ensures ok ==> NewStruck(news, refs, left)
  {
    hide NewStruck, NewWithin, UsedUp;
    left := refs;
    NewStruckNone(refs);
    var n := 0;
    while n < |news|
      invariant 0 <= n <= |news| && NewStruck(news[..n], refs, left)
    {
      var left';
      ok, left' := StrikeNew(news[n], left);
      NewStruckNext(news, n, refs, left, ok, left');
      if !ok {
        return;
      }
      left := left';
      n := n + 1;
    }
    assert news[..n] == news;
    ok := true;
    NewStruckWithin(news, refs, left);
  }

  lemma NewStruckNone(refs: map<int, int>)
    requires forall id :: id in refs ==> refs[id] > 0
    ensures NewStruck([][..0], refs, refs)
  {
  }

  lemma NewStruckWithin(news: seq<set<int>>, refs: map<int, int>, left: map<int, int>)
    requires NewStruck(news, refs, left)
    ensures NewWithin(news, refs)
  {
  }

  /** `Check_` returns 0 exactly on sound tables. */
  method Check(s: State) returns (err: int)
    ensures err == 0 <==> Sound(s)
  {
    hide Sound, EntriesSound, Sifted, TriedWithin, TriedStruck, NewWithin, NewStruck;
    if |s.random| != s.nTried + s.nNew {
      SoundParts(s);
      return -7;
    }
    var setTried, mapNew;
    err, setTried, mapNew := CheckEntries(s);
    SoundParts(s);
    if err != 0 {
      return;
    }
    SiftedAll(s, setTried, mapNew);
    SiftedPositive(s, setTried, mapNew);
    if |setTried| != s.nTried {
      return -9;
    }
    if |mapNew| != s.nNew {
      return -10;
    }
    var ok, leftTried := StrikeAllTried(s.tried, setTried);
    SoundBuckets(s, setTried, mapNew);
    if !ok {
      return -11;
    }
    var okNew, leftNew := StrikeAllNew(s.news, mapNew);
    if !okNew {
      return -12;
    }
    StruckSound(s, setTried, mapNew, leftTried, leftNew);
    if |leftTried| != 0 {
      return -13;
    }
    if |leftNew| != 0 {
      return -15;
    }
    return 0;
  }

  lemma SoundParts(s: State)
    ensures Sound(s) ==> |s.random| == s.nTried + s.nNew && EntriesSound(s)
    ensures Sound(s) ==> |TriedIds(s.info)| == s.nTried && |NewIds(s.info)| == s.nNew
  {
    hide EntriesSound, TriedIds, NewIds, Occurrences, Holding;
  }

  lemma SiftedPositive(s: State, setTried: set<int>, mapNew: map<int, int>)
    requires Sifted(s, s.info.Keys, setTried, mapNew)
    ensures forall id :: id in mapNew ==> mapNew[id] > 0
  {
    forall id | id in mapNew ensures mapNew[id] > 0 {
      assert EntrySound(s, id);
    }
  }

  lemma SoundBuckets(s: State, setTried: set<int>, mapNew: map<int, int>)
    requires Sifted(s, s.info.Keys, setTried, mapNew)
    ensures Sound(s) ==> TriedWithin(s.tried, setTried) && NewWithin(s.news, mapNew)
  {
    hide EntriesSound, EntrySound, Occurrences, Holding;
    assert forall id :: id in s.info <==> id in s.info.Keys;
  }

  lemma StruckSound(s: State, setTried: set<int>, mapNew: map<int, int>, leftTried: set<int>, leftNew: map<int, int>)
    requires |s.random| == s.nTried + s.nNew && EntriesSound(s) && Sifted(s, s.info.Keys, setTried, mapNew)
    requires |TriedIds(s.info)| == s.nTried && |NewIds(s.info)| == s.nNew
    requires TriedStruck(s.tried, setTried, leftTried) && NewStruck(s.news, mapNew, leftNew)
    ensures Sound(s) <==> leftTried == {} && leftNew.Keys == {}
  {
    hide EntriesSound, EntrySound, Occurrences, Holding, TriedIds, NewIds;
    assert forall id :: id in s.info <==> id in s.info.Keys;
    if leftTried != {} {
      var id := Ascending.Pick(leftTried);
      assert Occurrences(s.tried, id) == 0;
    } else if leftNew.Keys != {} {
      var id := Ascending.Pick(leftNew.Keys);
      assert Holding(s.news, id) < mapNew[id];
    } else {
      assert forall id :: id !in leftNew.Keys;
    }
  }
}
