/** Writing the address manager to peers.dat and reading it back (src/addrman.h). The byte encoding of
    each field is left to the stream; a `File` is the sequence of fields in the order they are written. */
module AddrDisk {
  import opened AddrTypes
  import opened AddrState
  import Ascending

  /** The fields of a `CAddrInfo` that reach the disk. */
  datatype Entry = Entry(service: Service, services: bv64, time: int, source: NetAddr, lastSuccess: int, attempts: int)

  datatype File = File(
    version: int,
    key: seq<nat>,
    nNew: int,
    nTried: int,
    nUBuckets: int,
    newEntries: seq<Entry>,
    triedEntries: seq<Entry>,
    buckets: seq<seq<int>>)

  function Save(x: Info): (e: Entry)
  {
    Entry(x.service, x.services, x.time, x.source, x.lastSuccess, x.attempts)
  }

  function Restore(e: Entry): (x: Info)
    ensures Save(x) == e
  {
    Info(e.service, e.services, e.time, e.source, e.lastSuccess, 0, e.attempts, 0, false, -1)
  }

  // ---------------------------------------------------------------- writing

  /** The ids of `order` that are tried, or those that are not, in order. */
  function Select(order: seq<int>, info: Table, tried: bool): (q: seq<int>)
    requires forall i :: 0 <= i < |order| ==> order[i] in info
    ensures forall i :: 0 <= i < |q| ==> q[i] in info
  {
    if order == [] then [] else
      var last := |order| - 1;
      Select(order[..last], info, tried) + if info[order[last]].inTried == tried then [order[last]] else []
  }

  lemma DistinctFront(q: seq<int>)
    requires Distinct(q) && q != []
    ensures Distinct(q[..|q| - 1]) && q[|q| - 1] !in q[..|q| - 1]
  {
  }

  lemma DistinctAppend(q: seq<int>, x: int)
    requires Distinct(q) && x !in q
    ensures Distinct(q + [x])
  {
  }

  lemma {:induction false} SelectMembers(order: seq<int>, info: Table, tried: bool)
    requires forall i :: 0 <= i < |order| ==> order[i] in info
    ensures var q := Select(order, info, tried);
      && (forall id :: id in q <==> id in order && info[id].inTried == tried)
      && |q| <= |order|
      && (Distinct(order) ==> Distinct(q))
  {
    hide Distinct;
    if order == [] {
      assert Distinct([]) by { NothingDistinct(); }
    } else {
      var last := |order| - 1;
      var front, x := order[..last], order[last];
      SelectMembers(front, info, tried);
      assert order == front + [x];
      if info[x].inTried == tried {
        if Distinct(order) {
          DistinctFront(order);
          DistinctAppend(Select(front, info, tried), x);
        }
      } else {
        assert Select(order, info, tried) == Select(front, info, tried);
        if Distinct(order) {
          DistinctFront(order);
        }
      }
    }
  }

  lemma NothingDistinct()
    ensures Distinct([])
  {
  }

  /** The ids of one kind in the order they are written. */
  function Order(info: Table, tried: bool): (q: seq<int>)
    ensures forall i :: 0 <= i < |q| ==> q[i] in info
  {
    Traversed(info.Keys);
    Select(Ascending.Sequence(info.Keys), info, tried)
  }

  lemma Traversed(ids: set<int>)
    ensures var q := Ascending.Sequence(ids); forall i :: 0 <= i < |q| ==> q[i] in ids
  {
    var q := Ascending.Sequence(ids);
    forall i | 0 <= i < |q| ensures q[i] in ids {
      assert q[i] in q;
    }
  }

  function IndexIn(q: seq<int>, id: int): (i: int)
    ensures if id in q then 0 <= i < |q| && q[i] == id else i == |q|
    ensures forall j :: 0 <= j < i ==> q[j] != id
  {
    if q == [] then 0 else if q[0] == id then 0 else 1 + IndexIn(q[1..], id)
  }

  function SaveAll(info: Table, ids: seq<int>): (es: seq<Entry>)
    requires forall i :: 0 <= i < |ids| ==> ids[i] in info
    ensures |es| == |ids| && forall i :: 0 <= i < |ids| ==> es[i] == Save(info[ids[i]])
  {
    seq(|ids|, i requires 0 <= i < |ids| => Save(info[ids[i]]))
  }

  function Positions(order: seq<int>, bucket: set<int>): (p: seq<int>)
    ensures |p| == |bucket|
  {
    var q := Ascending.Sequence(bucket);
    seq(|q|, i requires 0 <= i < |q| => IndexIn(order, q[i]))
  }

  lemma OrderMembers(info: Table, tried: bool)
    ensures forall id :: id in Order(info, tried) <==> id in info && info[id].inTried == tried
    ensures Distinct(Order(info, tried))
  {
    Traversed(info.Keys);
    SelectMembers(Ascending.Sequence(info.Keys), info, tried);
  }

  /** What `Serialize` writes for consistent tables. */
  function Snapshot(s: State, key: seq<nat>): (f: File)
  {
    File(0, key, s.nNew, s.nTried, NEW_BUCKET_COUNT,
         SaveAll(s.info, Order(s.info, false)), SaveAll(s.info, Order(s.info, true)),
         seq(|s.news|, b requires 0 <= b < |s.news| => Positions(Order(s.info, false), s.news[b])))
  }

  lemma {:induction false} SelectPrefix(order: seq<int>, info: Table, tried: bool, i: nat)
    requires i <= |order| && forall j :: 0 <= j < |order| ==> order[j] in info
    ensures Select(order[..i], info, tried) <= Select(order, info, tried)
    decreases |order| - i
  {
    if i < |order| {
      SelectPrefix(order, info, tried, i + 1);
      assert order[..i + 1][..i] == order[..i];
    } else {
      assert order[..i] == order;
    }
  }

  /** An id is written at the place given by how many of its kind come before it. */
  lemma SelectIndex(order: seq<int>, info: Table, tried: bool, i: nat)
    requires i < |order| && Distinct(order) && forall j :: 0 <= j < |order| ==> order[j] in info
    requires info[order[i]].inTried == tried
    ensures IndexIn(Select(order, info, tried), order[i]) == |Select(order[..i], info, tried)|
  {
    var before := Select(order[..i], info, tried);
    SelectPrefix(order, info, tried, i + 1);
    assert order[..i + 1][..i] == order[..i];
    assert Select(order[..i + 1], info, tried) == before + [order[i]];
    SelectMembers(order, info, tried);
    var q := Select(order, info, tried);
    assert q[|before|] == order[i];
    var k := IndexIn(q, order[i]);
    assert q[k] == order[i];
  }

  /** References are what tells new entries from tried ones. */
  ghost predicate RefsMatch(info: Table)
  {
    forall id :: id in info ==> (info[id].refCount != 0 <==> !info[id].inTried)
  }

  /** After `i` entries: those of one kind are written and every id passed has its number. */
  ghost predicate WrittenUpto(order: seq<int>, info: Table, tried: bool, i: int, entries: seq<Entry>,
      numbers: map<int, int>)
  {
    && 0 <= i <= |order|
    && (forall j :: 0 <= j < |order| ==> order[j] in info)
    && entries == SaveAll(info, Select(order[..i], info, tried))
    && forall j :: 0 <= j < i ==> order[j] in numbers && numbers[order[j]] == |Select(order[..j], info, tried)|
  }

  lemma WrittenNext(order: seq<int>, info: Table, tried: bool, i: int, entries: seq<Entry>, numbers: map<int, int>)
    requires WrittenUpto(order, info, tried, i, entries, numbers) && i < |order| && Distinct(order)
    ensures var id := order[i];
      WrittenUpto(order, info, tried, i + 1, if info[id].inTried == tried then entries + [Save(info[id])] else entries,
                  numbers[id := |entries|])
  {
    assert order[..i + 1][..i] == order[..i];
  }

  lemma SelectWhole(order: seq<int>, info: Table, tried: bool, i: nat)
    requires i <= |order| && forall j :: 0 <= j < |order| ==> order[j] in info
    requires i == |order| || |Select(order[..i], info, tried)| == |Select(order, info, tried)|
    ensures Select(order[..i], info, tried) == Select(order, info, tried)
  {
    hide Select;
    SelectPrefix(order, info, tried, i);
    if i == |order| {
      assert order[..i] == order;
    }
  }

  lemma WrittenAll(order: seq<int>, info: Table, tried: bool, i: int, entries: seq<Entry>, numbers: map<int, int>)
    requires WrittenUpto(order, info, tried, i, entries, numbers) && Distinct(order)
    requires i == |order| || |entries| == |Select(order, info, tried)|
    ensures entries == SaveAll(info, Select(order, info, tried))
    ensures forall id :: id in order && info[id].inTried == tried ==>
      id in numbers && numbers[id] == IndexIn(Select(order, info, tried), id)
  {
    hide Select, IndexIn, SaveAll, Distinct;
    SelectWhole(order, info, tried, i);
    forall id | id in order && info[id].inTried == tried
      ensures id in numbers && numbers[id] == IndexIn(Select(order, info, tried), id)
    {
      SelectMembers(order, info, tried);
      SelectMembers(order[..i], info, tried);
      var j :| 0 <= j < i && order[..i][j] == id;
      SelectIndex(order, info, tried, j);
    }
  }

  /** One of the two loops over `mapInfo`: the entries of one kind, at most `limit` of them, and the
      numbers given to the ids on the way. */
  method WriteEntries(info: Table, tried: bool, limit: int) returns (entries: seq<Entry>, numbers: map<int, int>)
    ensures RefsMatch(info) && limit == |Order(info, tried)| ==> entries == SaveAll(info, Order(info, tried))
    ensures RefsMatch(info) && limit == |Order(info, tried)| ==>
      forall id :: id in info && info[id].inTried == tried ==>
        id in numbers && numbers[id] == IndexIn(Order(info, tried), id)
  {
    hide WrittenUpto, Ascending.Sequence, Select, IndexIn, Save;
    var order := Ascending.Sequence(info.Keys);
    Traversed(info.Keys);
    entries, numbers := [], map[];
    WrittenNone(order, info, tried);
    var nIds := 0;
    var i := 0;
    while i < |order| && nIds != limit
      invariant 0 <= i <= |order| && nIds == |entries|
      invariant RefsMatch(info) ==> WrittenUpto(order, info, tried, i, entries, numbers)
    {
      var id := order[i];
      if RefsMatch(info) {
        WrittenNext(order, info, tried, i, entries, numbers);
      }
      numbers := numbers[id := nIds];
      if (if tried then info[id].inTried else info[id].refCount != 0) {
        entries := entries + [Save(info[id])];
        nIds := nIds + 1;
      }
      i := i + 1;
    }
    if RefsMatch(info) && limit == |Order(info, tried)| {
      WrittenAll(order, info, tried, i, entries, numbers);
      assert forall id :: id in info ==> id in order;
    }
  }

  lemma WrittenNone(order: seq<int>, info: Table, tried: bool)
    requires forall j :: 0 <= j < |order| ==> order[j] in info
    ensures WrittenUpto(order, info, tried, 0, [], map[])
  {
  }

  /** The numbers of the members of one new bucket; an id without a number reads as 0. */
  method WriteBucket(bucket: set<int>, numbers: map<int, int>, ghost order: seq<int>) returns (p: seq<int>)
    ensures |p| == |bucket|
    ensures var q := Ascending.Sequence(bucket);
      forall i :: 0 <= i < |p| ==> p[i] == if q[i] in numbers then numbers[q[i]] else 0
    ensures (forall id :: id in bucket ==> id in numbers && numbers[id] == IndexIn(order, id)) ==>
      p == Positions(order, bucket)
  {
    hide Ascending.Sequence, IndexIn;
    var q := Ascending.Sequence(bucket);
    Traversed(bucket);
    p := [];
    var i := 0;
    while i < |q|
      invariant 0 <= i <= |q| && |p| == i
      invariant forall j :: 0 <= j < i ==> p[j] == if q[j] in numbers then numbers[q[j]] else 0
    {
      p := p + [if q[i] in numbers then numbers[q[i]] else 0];
      i := i + 1;
    }
  }

  /** Writing. */
  method Write(s: State, key: seq<nat>) returns (f: File)
    ensures (exists env :: Consistent(env, key, s, {})) ==> f == Snapshot(s, key)
  {
    hide Consistent, Order, Positions, SaveAll, IndexIn, RefsMatch, Ascending.Sequence;
    var newEntries, numbers := WriteEntries(s.info, false, s.nNew);
    var triedEntries, ignored := WriteEntries(s.info, true, s.nTried);
    var buckets := [];
    var b := 0;
    while b < |s.news|
      invariant 0 <= b <= |s.news| && |buckets| == b
      invariant Numbered(s, numbers) ==> forall c :: 0 <= c < b ==>
        buckets[c] == Positions(Order(s.info, false), s.news[c])
    {
      var p := WriteBucket(s.news[b], numbers, Order(s.info, false));
      buckets := buckets + [p];
      b := b + 1;
    }
    f := File(0, key, s.nNew, s.nTried, NEW_BUCKET_COUNT, newEntries, triedEntries, buckets);
    if env :| Consistent(env, key, s, {}) {
      WriteReady(env, key, s);
      assert Numbered(s, numbers);
    }
  }

  ghost predicate Numbered(s: State, numbers: map<int, int>)
  {
    forall b, id :: 0 <= b < |s.news| && id in s.news[b] ==>
      id in numbers && numbers[id] == IndexIn(Order(s.info, false), id)
  }

  lemma RefsTell(env: Env, key: seq<nat>, s: State)
    requires TriedOk(env, key, s.info, s.tried) && NewOk(s.info, s.news, {})
    ensures RefsMatch(s.info)
  {
    hide TriedBucketOk, Holding;
  }

  lemma NewMembers(s: State)
    requires NewOk(s.info, s.news, {})
    ensures forall b, id :: 0 <= b < |s.news| && id in s.news[b] ==> id in s.info && !s.info[id].inTried
  {
    hide Holding;
  }

  lemma WriteReady(env: Env, key: seq<nat>, s: State)
    requires Consistent(env, key, s, {})
    ensures RefsMatch(s.info)
    ensures s.nNew == |Order(s.info, false)| && s.nTried == |Order(s.info, true)|
    ensures forall b, id :: 0 <= b < |s.news| && id in s.news[b] ==> id in s.info && !s.info[id].inTried
  {
    hide IdsBelow, AddrIndexed, RandomIndexed, TriedOk, NewOk, RefsMatch, Order, TriedIds, NewIds;
    RefsTell(env, key, s);
    NewMembers(s);
    OrderCount(s.info, false);
    OrderCount(s.info, true);
  }

  lemma OrderCount(info: Table, tried: bool)
    ensures |Order(info, tried)| == if tried then |TriedIds(info)| else |NewIds(info)|
  {
    OrderMembers(info, tried);
    DistinctSize(Order(info, tried), if tried then TriedIds(info) else NewIds(info));
  }

  lemma {:induction false} DistinctSize(q: seq<int>, ids: set<int>)
    requires Distinct(q) && forall id :: id in q <==> id in ids
    ensures |q| == |ids|
  {
    if q == [] {
      forall x ensures x !in ids {
        assert x !in q;
      }
      Ascending.NoMembers(ids);
    } else {
      var last := |q| - 1;
      assert q == q[..last] + [q[last]];
      DistinctSize(q[..last], ids - {q[last]});
    }
  }

  // ---------------------------------------------------------------- reading

  function Blank(f: File): (s: State)
  {
    State(map[], map[], [], seq(TRIED_BUCKET_COUNT, _ => []), seq(NEW_BUCKET_COUNT, _ => {}), f.nTried, f.nNew, 0)
  }

  /** Entering entry `e` under the id `n`. */
  function Enter(s: State, n: int, x: Info): (r: State)
  {
    s.(info := s.info[n := x.(randomPos := |s.random|)],
       addr := s.addr[x.service.net := n],
       random := s.random + [n])
  }

  /** Entering a tried entry under the next id, at the end of tried bucket `k`. */
  function EnterTried(s: State, k: int, x: Info): (r: State)
    requires 0 <= k < |s.tried|
    ensures |r.tried| == |s.tried| && r.news == s.news && r.nNew == s.nNew && r.nTried == s.nTried
    ensures r.idCount == s.idCount + 1
  {
    var t := Enter(s, s.idCount, x.(inTried := true));
    t.(tried := s.tried[k := s.tried[k] + [s.idCount]], idCount := s.idCount + 1)
  }

  /** Entering new entry `n`. A file of another number of buckets says nothing useful about them, so the
      entry goes into the one bucket its own source selects, however full that is. */
  function EnterNew(env: Env, f: File, s: State, n: int, x: Info): (r: State)
    requires |s.news| == NEW_BUCKET_COUNT
    ensures |r.tried| == |s.tried| && |r.news| == |s.news|
  {
    var t := Enter(s, n, x);
    if f.nUBuckets == NEW_BUCKET_COUNT then t else
      var b := NewBucket(env, f.key, x.service, x.source);
      t.(info := t.info[n := t.info[n].(refCount := t.info[n].refCount + 1)], news := t.news[b := t.news[b] + {n}])
  }

  function WithNew(env: Env, f: File, n: nat): (s: State)
    requires n <= |f.newEntries|
    ensures |s.tried| == TRIED_BUCKET_COUNT && |s.news| == NEW_BUCKET_COUNT
  {
    if n == 0 then Blank(f)
    else EnterNew(env, f, WithNew(env, f, n - 1), n - 1, Restore(f.newEntries[n - 1]))
  }

  ghost predicate OneReference(env: Env, f: File, n: nat, s: State)
    requires n <= |f.newEntries|
  {
    && |s.news| == NEW_BUCKET_COUNT
    && (forall i :: i in s.info <==> 0 <= i < n)
    && (forall i :: 0 <= i < n ==> Save(s.info[i]) == f.newEntries[i] && s.info[i].refCount == 1)
    && (forall b, i :: 0 <= b < NEW_BUCKET_COUNT && i in s.news[b] ==> 0 <= i < n)
    && (forall b, i :: 0 <= b < NEW_BUCKET_COUNT && 0 <= i < n ==>
          (i in s.news[b] <==> OwnBucket(env, f, i) == b))
  }

  function OwnBucket(env: Env, f: File, i: nat): (b: int)
    requires i < |f.newEntries|
    ensures 0 <= b < NEW_BUCKET_COUNT
  {
    NewBucket(env, f.key, f.newEntries[i].service, f.newEntries[i].source)
  }

  lemma EnterRehashed(env: Env, f: File, n: nat, s: State)
    requires f.nUBuckets != NEW_BUCKET_COUNT && n < |f.newEntries| && OneReference(env, f, n, s)
    ensures OneReference(env, f, n + 1, EnterNew(env, f, s, n, Restore(f.newEntries[n])))
  {
    var x := Restore(f.newEntries[n]);
    var r := EnterNew(env, f, s, n, x);
    var b := OwnBucket(env, f, n);
    assert r.info == s.info[n := x.(randomPos := |s.random|, refCount := 1)];
    assert r.news == s.news[b := s.news[b] + {n}];
    hide EnterNew, OwnBucket;
  }

  lemma BlankRehashed(env: Env, f: File)
    ensures OneReference(env, f, 0, Blank(f))
  {
  }

  /** From a file of another number of buckets every new entry gets exactly one reference, in the bucket
      its source selects. */
  lemma {:induction false} Rehashed(env: Env, f: File, n: nat)
    requires f.nUBuckets != NEW_BUCKET_COUNT && n <= |f.newEntries|
    ensures OneReference(env, f, n, WithNew(env, f, n))
  {
    hide OneReference, EnterNew, Restore, Blank;
    if n == 0 {
      BlankRehashed(env, f);
    } else {
      Rehashed(env, f, n - 1);
      EnterRehashed(env, f, n - 1, WithNew(env, f, n - 1));
    }
  }

  /** The first `n` tried entries read; those that find their bucket full are counted as lost. */
  function WithTried(env: Env, f: File, n: nat): (r: (State, int))
    requires n <= |f.triedEntries|
    ensures |r.0.tried| == TRIED_BUCKET_COUNT && |r.0.news| == NEW_BUCKET_COUNT
  {
    if n == 0 then (WithNew(env, f, |f.newEntries|).(idCount := |f.newEntries|), 0) else
      var (s, lost) := WithTried(env, f, n - 1);
      var x := Restore(f.triedEntries[n - 1]);
      var k := TriedBucket(env, f.key, x.service);
      if |s.tried[k]| < TRIED_BUCKET_SIZE then (EnterTried(s, k, x), lost)
      else (s, lost + 1)
  }

  /** One more tried entry whose bucket has room. */
  lemma WithTriedNext(env: Env, f: File, n: nat)
    requires n < |f.triedEntries|
    requires var x := Restore(f.triedEntries[n]);
      |WithTried(env, f, n).0.tried[TriedBucket(env, f.key, x.service)]| < TRIED_BUCKET_SIZE
    ensures var (s, lost) := WithTried(env, f, n);
            var x := Restore(f.triedEntries[n]);
      WithTried(env, f, n + 1) == (EnterTried(s, TriedBucket(env, f.key, x.service), x), lost)
  {
    hide TriedBucket, EnterTried, Restore;
  }

  function DefaultInfo(): (x: Info)
  {
    Info(Service(NetAddr(0), 0), 0, 0, NetAddr(0), 0, 0, 0, 0, false, -1)
  }

  /** Reading one index of bucket `b`: `mapInfo[nIndex]` creates an absent entry. */
  function WithIndex(s: State, b: int, index: int): (r: State)
    requires 0 <= b < |s.news|
    ensures |r.news| == |s.news|
  {
    var x := if index in s.info then s.info[index] else DefaultInfo();
    if x.refCount < NEW_BUCKETS_PER_ADDRESS then
      s.(info := s.info[index := x.(refCount := x.refCount + 1)], news := s.news[b := s.news[b] + {index}])
    else s.(info := s.info[index := x])
  }

  function WithIndexes(s: State, b: int, indexes: seq<int>): (r: State)
    requires 0 <= b < |s.news|
    ensures |r.news| == |s.news|
  {
    if indexes == [] then s
    else WithIndex(WithIndexes(s, b, indexes[..|indexes| - 1]), b, indexes[|indexes| - 1])
  }

  function WithBuckets(s: State, buckets: seq<seq<int>>, n: nat): (r: State)
    requires n <= |buckets| && n <= |s.news|
    ensures |r.news| == |s.news|
  {
    if n == 0 then s else WithIndexes(WithBuckets(s, buckets, n - 1), n - 1, buckets[n - 1])
  }

  /** What an index of a bucket does in a file of another number of buckets: `mapInfo[nIndex]` still
      creates an absent entry. */
  function Mentioned(s: State, indexes: seq<int>): (r: State)
    ensures |r.news| == |s.news|
  {
    if indexes == [] then s else
      var t := Mentioned(s, indexes[..|indexes| - 1]);
      var index := indexes[|indexes| - 1];
      if index in t.info then t else t.(info := t.info[index := DefaultInfo()])
  }

  function AllMentioned(s: State, buckets: seq<seq<int>>, n: nat): (r: State)
    requires n <= |buckets|
  {
    if n == 0 then s else Mentioned(AllMentioned(s, buckets, n - 1), buckets[n - 1])
  }

  /** A file whose counts match what follows them. */
  predicate WellFormed(f: File)
  {
    |f.newEntries| == f.nNew && |f.triedEntries| == f.nTried && f.nUBuckets == |f.buckets|
  }

  function Rebuilt(env: Env, f: File): (r: (State, int))
    requires WellFormed(f)
  {
    var (s, lost) := WithTried(env, f, f.nTried);
    var start := s.(nTried := s.nTried - lost);
    if f.nUBuckets == NEW_BUCKET_COUNT then (WithBuckets(start, f.buckets, NEW_BUCKET_COUNT), lost)
    else (AllMentioned(start, f.buckets, f.nUBuckets), lost)
  }

  /** Reading the new entries, numbered from 0. */
  method ReadNew(env: Env, f: File) returns (s: State)
    requires |f.newEntries| == f.nNew
    ensures s == WithNew(env, f, f.nNew)
  {
    hide EnterNew, Restore, Blank;
    s := Blank(f);
    var n := 0;
    while n < f.nNew
      invariant 0 <= n <= f.nNew && s == WithNew(env, f, n)
    {
      s := EnterNew(env, f, s, n, Restore(f.newEntries[n]));
      n := n + 1;
    }
  }

  /** Reading the tried entries, which take the next numbers. */
  method ReadTried(env: Env, f: File) returns (s: State, nLost: int)
    requires |f.newEntries| == f.nNew && |f.triedEntries| == f.nTried
    ensures (s, nLost) == WithTried(env, f, f.nTried)
  {
    hide EnterTried, Restore, WithNew, TriedBucket;
    s := ReadNew(env, f);
    s, nLost := s.(idCount := f.nNew), 0;
    var n := 0;
    while n < f.nTried
      invariant 0 <= n <= f.nTried && (s, nLost) == WithTried(env, f, n)
    {
      var x := Restore(f.triedEntries[n]);
      var k := TriedBucket(env, f.key, x.service);
      if |s.tried[k]| < TRIED_BUCKET_SIZE {
        s := EnterTried(s, k, x);
      } else {
        nLost := nLost + 1;
      }
      n := n + 1;
    }
  }

  /** Reading. */
  method Read(env: Env, f: File) returns (s: State, nLost: int)
    requires WellFormed(f)
    ensures (s, nLost) == Rebuilt(env, f)
  {
    hide WithTried, WithIndexes, Mentioned;
    s, nLost := ReadTried(env, f);
    s := s.(nTried := s.nTried - nLost);
    ghost var start := s;
    var b := 0;
    while b < f.nUBuckets
      invariant 0 <= b <= f.nUBuckets && |s.news| == NEW_BUCKET_COUNT
      invariant s == if f.nUBuckets == NEW_BUCKET_COUNT then WithBuckets(start, f.buckets, b)
                     else AllMentioned(start, f.buckets, b)
    {
      if f.nUBuckets == NEW_BUCKET_COUNT {
        s := ReadBucket(s, b, f.buckets[b]);
      } else {
        s := SkipBucket(s, f.buckets[b]);
      }
      b := b + 1;
    }
  }

  /** The inner loop when the number of buckets is another. */
  method SkipBucket(s: State, indexes: seq<int>) returns (r: State)
    ensures r == Mentioned(s, indexes)
  {
    r := s;
    var i := 0;
    while i < |indexes|
      invariant 0 <= i <= |indexes| && r == Mentioned(s, indexes[..i])
    {
      assert indexes[..i + 1][..i] == indexes[..i];
      if indexes[i] !in r.info {
        r := r.(info := r.info[indexes[i] := DefaultInfo()]);
      }
      i := i + 1;
    }
    assert indexes[..i] == indexes;
  }

  /** The inner loop when the number of buckets is that of this program. */
  method ReadBucket(s: State, b: int, indexes: seq<int>) returns (r: State)
    requires 0 <= b < |s.news|
    ensures r == WithIndexes(s, b, indexes)
  {
    hide WithIndex;
    r := s;
    var i := 0;
    while i < |indexes|
      invariant 0 <= i <= |indexes| && r == WithIndexes(s, b, indexes[..i])
    {
      assert indexes[..i + 1][..i] == indexes[..i];
      r := WithIndex(r, b, indexes[i]);
      i := i + 1;
    }
    assert indexes[..i] == indexes;
  }
}
