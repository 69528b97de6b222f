/** The tables of the address manager as one value, what it means for them to be consistent, and
    why every primitive change of src/addrman.cpp keeps them consistent. */
module AddrState {
  import opened AddrTypes

  type Table = map<int, Info>

  /** `mapInfo`, `mapAddr`, `vRandom`, `vvTried`, `vvNew`, the two counters and the id counter. */
  datatype State = State(
    info: Table,
    addr: map<NetAddr, int>,
    random: seq<int>,
    tried: seq<seq<int>>,
    news: seq<set<int>>,
    nTried: int,
    nNew: int,
    idCount: int)

  // ---------------------------------------------------------------- consistency

  /** `mapAddr` is exactly the inverse of the map from ids to network addresses. */
  ghost predicate AddrIndexed(info: Table, addr: map<NetAddr, int>)
  {
    && (forall id :: id in info ==> info[id].service.net in addr && addr[info[id].service.net] == id)
    && (forall a :: a in addr ==> addr[a] in info && info[addr[a]].service.net == a)
  }

  /** `vRandom` lists every id once, and each entry knows its position in it. */
  ghost predicate RandomIndexed(info: Table, random: seq<int>)
  {
    && (forall id :: id in info ==> 0 <= info[id].randomPos < |random| && random[info[id].randomPos] == id)
    && (forall i :: 0 <= i < |random| ==> random[i] in info && info[random[i]].randomPos == i)
  }

  ghost predicate Distinct(q: seq<int>)
  {
    forall i, j :: 0 <= i < j < |q| ==> q[i] != q[j]
  }

  ghost function Elements(q: seq<int>): (s: set<int>)
    ensures forall x :: x in s <==> x in q
  {
    set x | x in q
  }

  ghost predicate TriedBucketOk(env: Env, key: seq<nat>, info: Table, q: seq<int>, k: int)
  {
    && |q| <= TRIED_BUCKET_SIZE
    && Distinct(q)
    && (forall id :: id in q ==> id in info && info[id].inTried && TriedBucket(env, key, info[id].service) == k)
  }

  /** Every tried entry sits once, in the bucket its address selects, and in no new bucket. */
  ghost predicate TriedOk(env: Env, key: seq<nat>, info: Table, tried: seq<seq<int>>)
  {
    && |tried| == TRIED_BUCKET_COUNT
    && (forall k :: 0 <= k < |tried| ==> TriedBucketOk(env, key, info, tried[k], k))
    && (forall id :: id in info && info[id].inTried ==>
          info[id].refCount == 0 && id in tried[TriedBucket(env, key, info[id].service)])
  }

  /** In how many new buckets `id` occurs. */
  ghost function Holding(news: seq<set<int>>, id: int): (n: nat)
    ensures n <= |news|
    ensures n == 0 <==> forall b :: 0 <= b < |news| ==> id !in news[b]
  {
    if news == [] then 0
    else Holding(news[..|news| - 1], id) + (if id in news[|news| - 1] then 1 else 0)
  }

  /** Every other entry is in as many new buckets as it is referenced, one to four. The entries of
      `pending` carry one reference for a bucket they are about to be put in. */
  ghost predicate NewOk(info: Table, news: seq<set<int>>, pending: set<int>)
  {
    && |news| == NEW_BUCKET_COUNT
    && (forall b :: 0 <= b < |news| ==> |news[b]| <= NEW_BUCKET_SIZE)
    && (forall b, id :: 0 <= b < |news| && id in news[b] ==> id in info && !info[id].inTried)
    && (forall id :: id in info && !info[id].inTried ==>
          && 1 <= info[id].refCount <= NEW_BUCKETS_PER_ADDRESS
          && info[id].refCount == Holding(news, id) + (if id in pending then 1 else 0))
  }

  function TriedIds(info: Table): (ids: set<int>)
  {
    set id | id in info && info[id].inTried
  }

  function NewIds(info: Table): (ids: set<int>)
  {
    info.Keys - TriedIds(info)
  }

  ghost predicate Counted(info: Table, nTried: int, nNew: int)
  {
    nTried == |TriedIds(info)| && nNew == |NewIds(info)|
  }

  ghost predicate IdsBelow(info: Table, idCount: int)
  {
    0 <= idCount && forall id :: id in info ==> 0 <= id < idCount
  }

  ghost predicate Consistent(env: Env, key: seq<nat>, s: State, pending: set<int>)
  {
    && IdsBelow(s.info, s.idCount)
    && AddrIndexed(s.info, s.addr)
    && RandomIndexed(s.info, s.random)
    && TriedOk(env, key, s.info, s.tried)
    && NewOk(s.info, s.news, pending)
    && Counted(s.info, s.nTried, s.nNew)
  }

  /** What the debugging check asks of the time stamps. */
  ghost predicate TimesOk(info: Table)
  {
    forall id :: id in info ==>
      && 0 <= info[id].lastTry && 0 <= info[id].lastSuccess
      && (info[id].inTried ==> info[id].lastSuccess != 0)
  }

  // ---------------------------------------------------------------- counting lemmas

  lemma {:induction false} HoldingUpdate(news: seq<set<int>>, b: int, set': set<int>, id: int)
    requires 0 <= b < |news|
    ensures Holding(news[b := set'], id)
         == Holding(news, id) - (if id in news[b] then 1 else 0) + (if id in set' then 1 else 0)
  {
    var last := |news| - 1;
    var changed := news[b := set'];
    if b == last {
      assert changed[..last] == news[..last];
    } else {
      assert changed[..last] == news[..last][b := set'];
      HoldingUpdate(news[..last], b, set', id);
    }
  }

  lemma RecountTable(info: Table, id: int, x: Info)
    requires id in info
    ensures TriedIds(info[id := x]) == if x.inTried then TriedIds(info) + {id} else TriedIds(info) - {id}
    ensures NewIds(info[id := x]) == if x.inTried then NewIds(info) - {id} else NewIds(info) + {id}
  {
    assert info[id := x].Keys == info.Keys;
  }

  /** Replacing one entry moves it from one count to the other, or leaves both alone. */
  lemma RecountReplace(info: Table, id: int, x: Info)
    requires id in info
    ensures |TriedIds(info[id := x])| - |TriedIds(info)|
         == (if x.inTried then 1 else 0) - (if info[id].inTried then 1 else 0)
    ensures |NewIds(info[id := x])| - |NewIds(info)|
         == (if info[id].inTried then 1 else 0) - (if x.inTried then 1 else 0)
  {
    RecountTable(info, id, x);
    assert id in TriedIds(info) <==> info[id].inTried;
    assert id in NewIds(info) <==> !info[id].inTried;
    hide TriedIds, NewIds;
    Resized(TriedIds(info), id);
    Resized(NewIds(info), id);
  }

  lemma Resized(s: set<int>, x: int)
    ensures |s + {x}| == |s| + (if x in s then 0 else 1)
    ensures |s - {x}| == |s| - (if x in s then 1 else 0)
  {
    if x in s {
      assert s + {x} == s;
    } else {
      assert s - {x} == s;
    }
  }

  lemma RecountInsert(info: Table, id: int, x: Info)
    requires id !in info && !x.inTried
    ensures |TriedIds(info[id := x])| == |TriedIds(info)|
    ensures |NewIds(info[id := x])| == |NewIds(info)| + 1
  {
    assert TriedIds(info[id := x]) == TriedIds(info);
    assert NewIds(info[id := x]) == NewIds(info) + {id};
  }

  // ---------------------------------------------------------------- what each table depends on

  ghost predicate SameTried(info: Table, info': Table)
  {
    && (forall id :: id in info && info[id].inTried ==>
          id in info' && info'[id].inTried && info'[id].refCount == info[id].refCount &&
            info'[id].service == info[id].service)
    && (forall id :: id in info' && info'[id].inTried ==> id in info && info[id].inTried)
  }

  lemma SameTriedIds(info: Table, info': Table)
    requires SameTried(info, info')
    ensures TriedIds(info') == TriedIds(info)
  {
    assert forall id :: id in info && info[id].inTried <==> id in info' && info'[id].inTried;
  }

  lemma TriedFrame(env: Env, key: seq<nat>, info: Table, info': Table, tried: seq<seq<int>>)
    requires TriedOk(env, key, info, tried) && SameTried(info, info')
    ensures TriedOk(env, key, info', tried)
  {
    forall k | 0 <= k < |tried| ensures TriedBucketOk(env, key, info', tried[k], k) {
      assert TriedBucketOk(env, key, info, tried[k], k);
    }
  }

  /** Entries that differ at most in statistics and in their position in `vRandom`. */
  ghost predicate SameTables(info: Table, info': Table)
  {
    && info.Keys == info'.Keys
    && forall id :: id in info ==>
         info'[id].service == info[id].service && info'[id].refCount == info[id].refCount &&
           info'[id].inTried == info[id].inTried
  }

  lemma AddrFrame(info: Table, info': Table, addr: map<NetAddr, int>)
    requires AddrIndexed(info, addr) && info.Keys == info'.Keys
    requires forall id :: id in info ==> info'[id].service == info[id].service
    ensures AddrIndexed(info', addr)
  {
    assert forall id :: id in info' <==> id in info;
  }

  lemma RandomFrame(info: Table, info': Table, random: seq<int>)
    requires RandomIndexed(info, random) && info.Keys == info'.Keys
    requires forall id :: id in info ==> info'[id].randomPos == info[id].randomPos
    ensures RandomIndexed(info', random)
  {
    assert forall id :: id in info' <==> id in info;
  }

  lemma NewFrame(info: Table, info': Table, news: seq<set<int>>, pending: set<int>)
    requires NewOk(info, news, pending) && SameTables(info, info')
    ensures NewOk(info', news, pending)
  {
    assert forall id :: id in info' <==> id in info;
  }

  /** The indexes see only the keys, the addresses and the positions of the entries. */
  lemma IndexFrame(s: State, info': Table)
    requires IdsBelow(s.info, s.idCount) && AddrIndexed(s.info, s.addr) && RandomIndexed(s.info, s.random)
    requires info'.Keys == s.info.Keys
    requires forall id :: id in s.info ==>
      info'[id].service == s.info[id].service && info'[id].randomPos == s.info[id].randomPos
    ensures IdsBelow(info', s.idCount) && AddrIndexed(info', s.addr) && RandomIndexed(info', s.random)
  {
    hide AddrIndexed, RandomIndexed;
    assert forall id :: id in info' <==> id in s.info;
    AddrFrame(s.info, info', s.addr);
    RandomFrame(s.info, info', s.random);
  }

  lemma CountFrame(info: Table, info': Table, nTried: int, nNew: int)
    requires Counted(info, nTried, nNew) && SameTried(info, info') && info.Keys == info'.Keys
    ensures Counted(info', nTried, nNew)
  {
    SameTriedIds(info, info');
  }

  lemma SameTablesAgree(info: Table, info': Table)
    requires SameTables(info, info')
    ensures SameTried(info, info')
  {
    assert forall id :: id in info' <==> id in info;
  }

  lemma SameTablesKeepConsistency(env: Env, key: seq<nat>, s: State, s': State, pending: set<int>)
    requires Consistent(env, key, s, pending)
    requires SameTables(s.info, s'.info) && RandomIndexed(s'.info, s'.random)
    requires s' == s.(info := s'.info, random := s'.random)
    ensures Consistent(env, key, s', pending)
  {
    assert IdsBelow(s'.info, s'.idCount) by { assert forall id :: id in s'.info <==> id in s.info; }
    AddrFrame(s.info, s'.info, s.addr);
    hide IdsBelow, AddrIndexed, RandomIndexed, TriedOk, NewOk, Counted, SameTables, SameTried;
    SameTablesAgree(s.info, s'.info);
    TriedFrame(env, key, s.info, s'.info, s.tried);
    NewFrame(s.info, s'.info, s.news, pending);
    SameTablesKeys(s.info, s'.info);
    CountFrame(s.info, s'.info, s.nTried, s.nNew);
  }

  lemma SameTablesKeys(info: Table, info': Table)
    requires SameTables(info, info')
    ensures info.Keys == info'.Keys
  {
  }

  // ---------------------------------------------------------------- statistics

  /** Fields of an entry on which the tables depend. */
  predicate SameIndexing(x: Info, y: Info)
  {
    x.service == y.service && x.refCount == y.refCount && x.inTried == y.inTried && x.randomPos == y.randomPos
  }

  lemma SameIndexingTables(info: Table, id: int, x: Info)
    requires id in info && SameIndexing(x, info[id])
    ensures SameTables(info, info[id := x])
  {
    assert info[id := x].Keys == info.Keys;
  }

  lemma StatisticsKeepConsistency(env: Env, key: seq<nat>, s: State, pending: set<int>, id: int, x: Info)
    requires Consistent(env, key, s, pending) && id in s.info && SameIndexing(x, s.info[id])
    ensures Consistent(env, key, s.(info := s.info[id := x]), pending)
  {
    var s' := s.(info := s.info[id := x]);
    assert RandomIndexed(s'.info, s'.random) by {
      hide RandomIndexed;
      assert s'.info.Keys == s.info.Keys;
      RandomFrame(s.info, s'.info, s.random);
    }
    hide Consistent, RandomIndexed, SameTables;
    SameIndexingTables(s.info, id, x);
    SameTablesKeepConsistency(env, key, s, s', pending);
  }

  // ---------------------------------------------------------------- vRandom

  /** `SwapRandom`. */
  function Swap(s: State, i: int, j: int): (r: State)
    requires i != j ==> 0 <= i < |s.random| && 0 <= j < |s.random| && s.random[i] in s.info && s.random[j] in s.info
  {
    if i == j then s else
      var id1, id2 := s.random[i], s.random[j];
      var info1 := s.info[id1 := s.info[id1].(randomPos := j)];
      s.(info := info1[id2 := info1[id2].(randomPos := i)],
         random := s.random[i := id2][j := id1])
  }

  /** Entries that differ at most in their position in `vRandom`. */
  ghost predicate SameButPositions(info: Table, info': Table)
  {
    info.Keys == info'.Keys && forall id :: id in info ==> info'[id] == info[id].(randomPos := info'[id].randomPos)
  }

  lemma SwapIndexed(s: State, i: int, j: int)
    requires RandomIndexed(s.info, s.random)
    requires 0 <= i < |s.random| && 0 <= j < |s.random|
    ensures var r := Swap(s, i, j);
      && RandomIndexed(r.info, r.random) && SameButPositions(s.info, r.info)
      && r == s.(info := r.info, random := r.random)
      && |r.random| == |s.random| && r.random[i] == s.random[j] && r.random[j] == s.random[i]
      && multiset(r.random) == multiset(s.random)
  {
    hide RandomIndexed;
    SwapKeepsIndex(s, i, j);
    if i != j {
      SwapPermutes(s.random, i, j);
    }
  }

  lemma SwapKeepsIndex(s: State, i: int, j: int)
    requires RandomIndexed(s.info, s.random)
    requires 0 <= i < |s.random| && 0 <= j < |s.random|
    ensures s.random[i] in s.info && s.random[j] in s.info && (i != j ==> s.random[i] != s.random[j])
    ensures RandomIndexed(Swap(s, i, j).info, Swap(s, i, j).random)
  {
  }

  lemma SwapPermutes(q: seq<int>, i: int, j: int)
    requires 0 <= i < |q| && 0 <= j < |q| && i != j
    ensures multiset(q[i := q[j]][j := q[i]]) == multiset(q)
  {
    assert multiset(q[i := q[j]]) == multiset(q) - multiset{q[i]} + multiset{q[j]};
  }

  // ---------------------------------------------------------------- deletion

  /** Forgetting an entry altogether: the tail of both branches of `ShrinkNew`. */
  function Delete(s: State, id: int): (r: State)
    requires id in s.info && RandomIndexed(s.info, s.random)
  {
    SwapIndexed(s, s.info[id].randomPos, |s.random| - 1);
    var t := Swap(s, s.info[id].randomPos, |s.random| - 1);
    t.(random := t.random[..|t.random| - 1],
       addr := t.addr - {s.info[id].service.net},
       info := t.info - {id},
       nNew := t.nNew - 1)
  }

  /** The entry of `id` with one reference less. */
  function Dropped(info: Table, id: int): (r: Table)
    requires id in info
    ensures r.Keys == info.Keys
  {
    info[id := info[id].(refCount := info[id].refCount - 1)]
  }

  lemma DroppedIndexes(info: Table, random: seq<int>, addr: map<NetAddr, int>, id: int)
    requires id in info
    ensures RandomIndexed(info, random) ==> RandomIndexed(Dropped(info, id), random)
    ensures AddrIndexed(info, addr) ==> AddrIndexed(Dropped(info, id), addr)
  {
    var info' := Dropped(info, id);
    hide RandomIndexed, AddrIndexed;
    if RandomIndexed(info, random) {
      RandomFrame(info, info', random);
    }
    if AddrIndexed(info, addr) {
      AddrFrame(info, info', addr);
    }
  }

  /** Taking `id` out of the new bucket `b`, forgetting it with its last reference. */
  function Unref(s: State, b: int, id: int): (r: State)
    requires 0 <= b < |s.news| && id in s.info && RandomIndexed(s.info, s.random)
    ensures |r.news| == |s.news|
  {
    var t := s.(info := Dropped(s.info, id));
    DroppedIndexes(s.info, s.random, s.addr, id);
    var u := if t.info[id].refCount == 0 then Delete(t, id) else t;
    u.(news := u.news[b := u.news[b] - {id}])
  }

  lemma LastForgotten(info: Table, random: seq<int>, id: int)
    requires RandomIndexed(info, random) && |random| > 0 && random[|random| - 1] == id
    ensures RandomIndexed(info - {id}, random[..|random| - 1])
  {
    var n := |random| - 1;
    forall i | 0 <= i < n ensures random[i] != id {
      assert info[random[i]].randomPos == i && info[random[n]].randomPos == n;
    }
  }

  lemma WithoutSame(info: Table, info': Table, id: int)
    requires SameButPositions(info, info')
    ensures SameButPositions(info - {id}, info' - {id})
  {
    assert (info - {id}).Keys == info.Keys - {id};
    assert (info' - {id}).Keys == info'.Keys - {id};
    assert forall i :: i in info' <==> i in info;
  }

  /** Deletion moves `id` to the end of `vRandom` and drops the end. */
  lemma DeleteSwaps(s: State, id: int)
    requires id in s.info && RandomIndexed(s.info, s.random)
    ensures var p, n := s.info[id].randomPos, |s.random| - 1;
      && 0 <= p <= n && s.random[p] in s.info && s.random[n] in s.info
      && var t := Swap(s, p, n);
        && RandomIndexed(t.info, t.random) && SameButPositions(s.info, t.info)
        && |t.random| == n + 1 && t.random[n] == id
        && Delete(s, id).info == t.info - {id} && Delete(s, id).random == t.random[..n]
  {
    SwapIndexed(s, s.info[id].randomPos, |s.random| - 1);
    hide Swap, SameButPositions;
  }

  lemma DeleteRandom(s: State, id: int)
    requires id in s.info && RandomIndexed(s.info, s.random)
    ensures var r := Delete(s, id); RandomIndexed(r.info, r.random) && SameButPositions(s.info - {id}, r.info)
  {
    hide RandomIndexed, Swap, SameButPositions, Delete;
    DeleteSwaps(s, id);
    var t := Swap(s, s.info[id].randomPos, |s.random| - 1);
    LastForgotten(t.info, t.random, id);
    WithoutSame(s.info, t.info, id);
  }

  lemma DeleteFields(s: State, id: int)
    requires id in s.info && RandomIndexed(s.info, s.random)
    ensures var r := Delete(s, id);
      r == s.(info := r.info, random := r.random, addr := s.addr - {s.info[id].service.net}, nNew := s.nNew - 1)
  {
    var p := s.info[id].randomPos;
    var n := |s.random| - 1;
    assert 0 <= p <= n;
    SwapIndexed(s, p, n);
    hide RandomIndexed, Swap, SameButPositions;
  }

  lemma DeleteAddr(s: State, id: int)
    requires id in s.info && RandomIndexed(s.info, s.random) && AddrIndexed(s.info, s.addr)
    ensures var r := Delete(s, id); AddrIndexed(r.info, r.addr)
  {
    DeleteRandom(s, id);
    DeleteFields(s, id);
    var r := Delete(s, id);
    hide Delete, RandomIndexed;
    AddrForgotten(s.info, s.addr, id);
    assert SameButPositions(s.info - {id}, r.info);
    AddrFrame(s.info - {id}, r.info, r.addr);
  }

  lemma AddrForgotten(info: Table, addr: map<NetAddr, int>, id: int)
    requires AddrIndexed(info, addr) && id in info
    ensures AddrIndexed(info - {id}, addr - {info[id].service.net})
  {
  }

  /** The entries after `Unref`: all as before up to positions, except `id`. */
  lemma UnrefTables(s: State, b: int, id: int)
    requires 0 <= b < |s.news| && id in s.info && RandomIndexed(s.info, s.random)
    ensures var r := Unref(s, b, id);
      && r.news == s.news[b := s.news[b] - {id}]
      && r.info.Keys == (if s.info[id].refCount == 1 then s.info.Keys - {id} else s.info.Keys)
      && (forall i :: i in r.info && i != id ==> r.info[i] == s.info[i].(randomPos := r.info[i].randomPos))
      && (s.info[id].refCount != 1 ==> r.info[id] == s.info[id].(refCount := s.info[id].refCount - 1))
      && r.tried == s.tried && r.nTried == s.nTried && r.idCount == s.idCount
      && r.addr == (if s.info[id].refCount == 1 then s.addr - {s.info[id].service.net} else s.addr)
      && r.nNew == (if s.info[id].refCount == 1 then s.nNew - 1 else s.nNew)
  {
    var t := s.(info := Dropped(s.info, id));
    DroppedIndexes(s.info, s.random, s.addr, id);
    hide RandomIndexed, Delete;
    if s.info[id].refCount == 1 {
      DeleteRandom(t, id);
      DeleteFields(t, id);
      var d := Delete(t, id);
      assert d.info.Keys == s.info.Keys - {id} by { assert (t.info - {id}).Keys == t.info.Keys - {id}; }
    }
  }

  lemma UnrefIndexes(s: State, b: int, id: int)
    requires 0 <= b < |s.news| && id in s.info && RandomIndexed(s.info, s.random) && AddrIndexed(s.info, s.addr)
    ensures var r := Unref(s, b, id); RandomIndexed(r.info, r.random) && AddrIndexed(r.info, r.addr)
  {
    var t := s.(info := Dropped(s.info, id));
    DroppedIndexes(s.info, s.random, s.addr, id);
    hide RandomIndexed, AddrIndexed, Delete;
    if s.info[id].refCount == 1 {
      DeleteRandom(t, id);
      DeleteAddr(t, id);
    }
  }

  lemma HoldingLess(news: seq<set<int>>, b: int, id: int)
    requires 0 <= b < |news| && id in news[b]
    ensures forall i :: Holding(news[b := news[b] - {id}], i) == Holding(news, i) - (if i == id then 1 else 0)
  {
    forall i ensures Holding(news[b := news[b] - {id}], i) == Holding(news, i) - (if i == id then 1 else 0) {
      HoldingUpdate(news, b, news[b] - {id}, i);
    }
  }

  /** What the new buckets hold once `id` has left bucket `b`: a last reference leaves nothing behind. */
  lemma LeftBuckets(info: Table, news: seq<set<int>>, pending: set<int>, b: int, id: int)
    requires NewOk(info, news, pending)
    requires 0 <= b < |news| && id in news[b] && id !in pending
    ensures id in info && info[id].refCount == Holding(news, id)
    ensures var left := news[b := news[b] - {id}];
      && (forall c :: 0 <= c < |left| ==> |left[c]| <= NEW_BUCKET_SIZE)
      && (forall c, i :: 0 <= c < |left| && i in left[c] ==>
            i in info && !info[i].inTried && (i == id ==> info[id].refCount != 1))
  {
    HoldingLess(news, b, id);
    var left := news[b := news[b] - {id}];
    assert Holding(left, id) == Holding(news, id) - 1;
    forall c, i | 0 <= c < |left| && i in left[c]
      ensures i in info && !info[i].inTried && (i == id ==> info[id].refCount != 1)
    {
      assert i in news[c];
    }
  }

  lemma UnrefNew(s: State, pending: set<int>, b: int, id: int)
    requires RandomIndexed(s.info, s.random) && NewOk(s.info, s.news, pending)
    requires 0 <= b < |s.news| && id in s.news[b] && id !in pending
    ensures var r := Unref(s, b, id); NewOk(r.info, r.news, pending)
  {
    LeftBuckets(s.info, s.news, pending, b, id);
    HoldingLess(s.news, b, id);
    UnrefTables(s, b, id);
    hide Unref, RandomIndexed, Holding;
  }

  lemma UnrefSameTried(s: State, b: int, id: int)
    requires 0 <= b < |s.news| && id in s.info && !s.info[id].inTried && RandomIndexed(s.info, s.random)
    ensures SameTried(s.info, Unref(s, b, id).info)
  {
    UnrefTables(s, b, id);
    hide Unref, RandomIndexed;
    var r := Unref(s, b, id);
    forall i | i in s.info && s.info[i].inTried
      ensures i in r.info && r.info[i] == s.info[i].(randomPos := r.info[i].randomPos)
    {
      assert i != id && i in r.info.Keys;
    }
  }

  lemma UnrefCounted(s: State, b: int, id: int)
    requires 0 <= b < |s.news| && id in s.info && !s.info[id].inTried && RandomIndexed(s.info, s.random)
    requires Counted(s.info, s.nTried, s.nNew)
    ensures var r := Unref(s, b, id); Counted(r.info, r.nTried, r.nNew)
  {
    UnrefTables(s, b, id);
    UnrefSameTried(s, b, id);
    hide Unref, RandomIndexed, SameTried;
    var r := Unref(s, b, id);
    SameTriedIds(s.info, r.info);
    assert id !in TriedIds(s.info);
    hide TriedIds;
    if s.info[id].refCount == 1 {
      assert NewIds(r.info) == NewIds(s.info) - {id};
      assert id in NewIds(s.info);
    }
  }

  lemma UnrefTried(env: Env, key: seq<nat>, s: State, b: int, id: int)
    requires TriedOk(env, key, s.info, s.tried) && RandomIndexed(s.info, s.random)
    requires 0 <= b < |s.news| && id in s.info && !s.info[id].inTried
    ensures var r := Unref(s, b, id); TriedOk(env, key, r.info, r.tried)
  {
    hide TriedOk, RandomIndexed, Unref, SameTried;
    UnrefTables(s, b, id);
    UnrefSameTried(s, b, id);
    TriedFrame(env, key, s.info, Unref(s, b, id).info, s.tried);
  }

  lemma UnrefIds(s: State, b: int, id: int)
    requires IdsBelow(s.info, s.idCount) && RandomIndexed(s.info, s.random)
    requires 0 <= b < |s.news| && id in s.info
    ensures var r := Unref(s, b, id); IdsBelow(r.info, r.idCount)
  {
    hide RandomIndexed, Unref;
    UnrefTables(s, b, id);
    assert forall i :: i in Unref(s, b, id).info ==> i in s.info;
  }

  lemma UnrefKeepsConsistency(env: Env, key: seq<nat>, s: State, pending: set<int>, b: int, id: int)
    requires Consistent(env, key, s, pending)
    requires 0 <= b < |s.news| && id in s.news[b] && id !in pending
    ensures Consistent(env, key, Unref(s, b, id), pending)
  {
    assert id in s.info && !s.info[id].inTried;
    hide IdsBelow, AddrIndexed, RandomIndexed, TriedOk, NewOk, Counted, Unref;
    UnrefIds(s, b, id);
    UnrefTried(env, key, s, b, id);
    UnrefIndexes(s, b, id);
    UnrefNew(s, pending, b, id);
    UnrefCounted(s, b, id);
  }

  // ---------------------------------------------------------------- entering a new bucket

  /** `Create`. */
  function Created(s: State, addr: Address, source: NetAddr): (r: State)
  {
    var x := FreshInfo(addr, source).(randomPos := |s.random|);
    s.(info := s.info[s.idCount := x],
       addr := s.addr[addr.service.net := s.idCount],
       random := s.random + [s.idCount],
       idCount := s.idCount + 1)
  }

  /** Taking a reference to `id` for a new bucket. */
  function Ref(s: State, id: int): (r: State)
    requires id in s.info
  {
    s.(info := s.info[id := s.info[id].(refCount := s.info[id].refCount + 1)])
  }

  function Put(s: State, b: int, id: int): (r: State)
    requires 0 <= b < |s.news|
  {
    s.(news := s.news[b := s.news[b] + {id}])
  }

  lemma RefPending(env: Env, key: seq<nat>, s: State, id: int)
    requires Consistent(env, key, s, {})
    requires id in s.info && !s.info[id].inTried && s.info[id].refCount < NEW_BUCKETS_PER_ADDRESS
    ensures Consistent(env, key, Ref(s, id), {id})
  {
    hide IdsBelow, AddrIndexed, RandomIndexed, TriedOk, NewOk, Counted, SameTried;
    var r := Ref(s, id);
    RefTables(s.info, id);
    IndexFrame(s, r.info);
    TriedFrame(env, key, s.info, r.info, s.tried);
    CountFrame(s.info, r.info, s.nTried, s.nNew);
    RefNew(s, id);
  }

  lemma RefTables(info: Table, id: int)
    requires id in info && !info[id].inTried
    ensures var r := info[id := info[id].(refCount := info[id].refCount + 1)]; r.Keys == info.Keys && SameTried(info, r)
  {
    assert info[id := info[id].(refCount := info[id].refCount + 1)].Keys == info.Keys;
  }

  lemma RefNew(s: State, id: int)
    requires NewOk(s.info, s.news, {})
    requires id in s.info && !s.info[id].inTried && s.info[id].refCount < NEW_BUCKETS_PER_ADDRESS
    ensures NewOk(Ref(s, id).info, s.news, {id})
  {
  }

  /** A new entry with its first reference: `Create` followed by the rest of the else branch of `Add_`. */
  function Entered(s: State, addr: Address, source: NetAddr, time: int): (r: State)
  {
    var t := Created(s, addr, source);
    var x := t.info[s.idCount].(time := time);
    Ref(t.(info := t.info[s.idCount := x], nNew := t.nNew + 1), s.idCount)
  }

  lemma EnteredInfo(s: State, addr: Address, source: NetAddr, time: int)
    ensures var r := Entered(s, addr, source, time);
      && r.info == s.info[s.idCount := FreshInfo(addr, source).(randomPos := |s.random|, time := time, refCount := 1)]
      && r == s.(info := r.info, addr := s.addr[addr.service.net := s.idCount], random := s.random + [s.idCount],
                 nNew := s.nNew + 1, idCount := s.idCount + 1)
  {
  }

  lemma EnteredIndexes(s: State, id: int, x: Info)
    requires AddrIndexed(s.info, s.addr) && RandomIndexed(s.info, s.random)
    requires id !in s.info && x.service.net !in s.addr && x.randomPos == |s.random|
    ensures AddrIndexed(s.info[id := x], s.addr[x.service.net := id])
    ensures RandomIndexed(s.info[id := x], s.random + [id])
  {
  }

  lemma EnteredNew(s: State, id: int, x: Info)
    requires NewOk(s.info, s.news, {}) && id !in s.info && x.refCount == 1 && !x.inTried
    ensures NewOk(s.info[id := x], s.news, {id})
  {
    assert Holding(s.news, id) == 0;
  }

  lemma EnteredPending(env: Env, key: seq<nat>, s: State, addr: Address, source: NetAddr, time: int)
    requires Consistent(env, key, s, {}) && addr.service.net !in s.addr
    ensures Consistent(env, key, Entered(s, addr, source, time), {s.idCount})
  {
    var id := s.idCount;
    var x := FreshInfo(addr, source).(randomPos := |s.random|, time := time, refCount := 1);
    EnteredInfo(s, addr, source, time);
    EnteredIds(s.info, id, x);
    hide IdsBelow, AddrIndexed, RandomIndexed, TriedOk, NewOk, Entered, TriedIds, NewIds, SameTried;
    EnteredIndexes(s, id, x);
    EnteredNew(s, id, x);
    TriedFrame(env, key, s.info, s.info[id := x], s.tried);
    RecountInsert(s.info, id, x);
  }

  lemma EnteredIds(info: Table, id: int, x: Info)
    requires IdsBelow(info, id) && !x.inTried
    ensures id !in info && IdsBelow(info[id := x], id + 1) && SameTried(info, info[id := x])
  {
  }

  lemma PutKeepsConsistency(env: Env, key: seq<nat>, s: State, b: int, id: int)
    requires Consistent(env, key, s, {id}) && id in s.info && !s.info[id].inTried
    requires 0 <= b < |s.news| && id !in s.news[b] && |s.news[b]| < NEW_BUCKET_SIZE
    ensures Consistent(env, key, Put(s, b, id), {})
  {
    assert |s.news| == NEW_BUCKET_COUNT;
    hide IdsBelow, AddrIndexed, RandomIndexed, TriedOk, NewOk, Counted;
    PutNew(s, b, id);
  }

  lemma PutNew(s: State, b: int, id: int)
    requires NewOk(s.info, s.news, {id}) && id in s.info && !s.info[id].inTried
    requires 0 <= b < |s.news| && id !in s.news[b] && |s.news[b]| < NEW_BUCKET_SIZE
    ensures NewOk(s.info, Put(s, b, id).news, {})
  {
    hide Holding;
    var r := Put(s, b, id);
    forall i ensures Holding(r.news, i) == Holding(s.news, i) + (if i == id then 1 else 0) {
      HoldingUpdate(s.news, b, s.news[b] + {id}, i);
    }
    assert forall c, i :: 0 <= c < |r.news| && i in r.news[c] ==> i in s.news[c] || i == id;
  }

  // ---------------------------------------------------------------- becoming tried

  /** `id` taken out of every new bucket: the loop that opens `MakeTried`. */
  ghost function Purged(news: seq<set<int>>, id: int): (r: seq<set<int>>)
    ensures |r| == |news|
    ensures forall b :: 0 <= b < |news| ==> r[b] == news[b] - {id}
  {
    seq(|news|, b requires 0 <= b < |news| => news[b] - {id})
  }

  lemma {:induction false} HoldingPurged(news: seq<set<int>>, id: int, i: int)
    ensures Holding(Purged(news, id), i) == if i == id then 0 else Holding(news, i)
  {
    if news != [] {
      var last := |news| - 1;
      HoldingPurged(news[..last], id, i);
      assert Purged(news, id)[..last] == Purged(news[..last], id);
    }
  }

  lemma {:induction false} DistinctMultiset(q: seq<int>)
    ensures Distinct(q) <==> forall x :: multiset(q)[x] <= 1
  {
    if q != [] {
      var last := |q| - 1;
      var rest := q[..last];
      assert q == rest + [q[last]];
      DistinctMultiset(rest);
      if Distinct(q) {
        assert Distinct(rest) && q[last] !in rest;
      } else if Distinct(rest) {
        assert q[last] in rest;
        assert multiset(rest)[q[last]] >= 1;
        assert multiset(q)[q[last]] >= 2;
      } else {
        var x :| multiset(rest)[x] > 1;
        assert multiset(q)[x] > 1;
      }
    }
  }

  lemma PermutedBucket(env: Env, key: seq<nat>, info: Table, q: seq<int>, q': seq<int>, k: int)
    requires TriedBucketOk(env, key, info, q, k) && multiset(q) == multiset(q')
    ensures TriedBucketOk(env, key, info, q', k)
    ensures forall id :: id in q' <==> id in q
    ensures |q'| == |q|
  {
    DistinctMultiset(q);
    DistinctMultiset(q');
    assert forall id :: id in q' <==> id in multiset(q');
    assert |q'| == |multiset(q')|;
  }

  /** Every reference of `id` dropped. */
  function Cleared(info: Table, id: int): (r: Table)
    requires id in info
    ensures r.Keys == info.Keys
  {
    info[id := info[id].(refCount := 0)]
  }

  function MarkedTried(info: Table, id: int): (r: Table)
    requires id in info
    ensures r.Keys == info.Keys
  {
    info[id := info[id].(inTried := true)]
  }

  function MarkedNew(info: Table, id: int): (r: Table)
    requires id in info
    ensures r.Keys == info.Keys
  {
    info[id := info[id].(inTried := false, refCount := 1)]
  }

  /** `MakeTried` when the tried bucket `k` has room. */
  ghost function Promoted(s: State, id: int, k: int): (r: State)
    requires id in s.info && 0 <= k < |s.tried|
  {
    s.(info := MarkedTried(Cleared(s.info, id), id),
       tried := s.tried[k := s.tried[k] + [id]],
       news := Purged(s.news, id),
       nTried := s.nTried + 1,
       nNew := s.nNew - 1)
  }

  /** `MakeTried` when the tried bucket `k` is full: after shuffling the bucket into `q`, the entry at
      `pos` goes back to the new bucket `b` and `id` takes its place. */
  ghost function Exchanged(s: State, id: int, k: int, q: seq<int>, pos: int, b: int): (r: State)
    requires id in s.info && 0 <= k < |s.tried| && 0 <= pos < |q| && q[pos] in s.info && 0 <= b < |s.news|
  {
    var purged := Purged(s.news, id);
    s.(info := MarkedTried(MarkedNew(Cleared(s.info, id), q[pos]), id),
       tried := s.tried[k := q[pos := id]],
       news := purged[b := purged[b] + {q[pos]}])
  }

  lemma PromotedInfo(s: State, id: int, k: int)
    requires id in s.info && 0 <= k < |s.tried|
    ensures Promoted(s, id, k).info == s.info[id := s.info[id].(refCount := 0, inTried := true)]
  {
  }

  lemma PromotedTried(env: Env, key: seq<nat>, s: State, id: int, k: int)
    requires TriedOk(env, key, s.info, s.tried)
    requires id in s.info && !s.info[id].inTried && k == TriedBucket(env, key, s.info[id].service)
    requires |s.tried[k]| < TRIED_BUCKET_SIZE
    ensures var r := Promoted(s, id, k); TriedOk(env, key, r.info, r.tried)
  {
    PromotedInfo(s, id, k);
    var r := Promoted(s, id, k);
    assert TriedBucketOk(env, key, s.info, s.tried[k], k);
    assert id !in s.tried[k];
    forall j | 0 <= j < |r.tried| ensures TriedBucketOk(env, key, r.info, r.tried[j], j) {
      assert TriedBucketOk(env, key, s.info, s.tried[j], j);
    }
  }

  lemma PromotedNew(s: State, id: int, k: int)
    requires NewOk(s.info, s.news, {}) && id in s.info && 0 <= k < |s.tried|
    ensures var r := Promoted(s, id, k); NewOk(r.info, r.news, {})
  {
    PromotedInfo(s, id, k);
    var r := Promoted(s, id, k);
    forall i ensures Holding(r.news, i) == if i == id then 0 else Holding(s.news, i) {
      HoldingPurged(s.news, id, i);
    }
    SmallerBuckets(s.news, id);
  }

  lemma SmallerBuckets(news: seq<set<int>>, id: int)
    ensures forall b :: 0 <= b < |news| ==> |Purged(news, id)[b]| == |news[b]| - (if id in news[b] then 1 else 0)
  {
    forall b | 0 <= b < |news| ensures |Purged(news, id)[b]| == |news[b]| - (if id in news[b] then 1 else 0) {
      assert id !in news[b] ==> news[b] - {id} == news[b];
    }
  }

  lemma PromotedIndexes(s: State, id: int, k: int)
    requires IdsBelow(s.info, s.idCount) && AddrIndexed(s.info, s.addr) && RandomIndexed(s.info, s.random)
    requires id in s.info && 0 <= k < |s.tried|
    ensures var r := Promoted(s, id, k);
      IdsBelow(r.info, r.idCount) && AddrIndexed(r.info, r.addr) && RandomIndexed(r.info, r.random)
  {
    hide IdsBelow, AddrIndexed, RandomIndexed;
    IndexFrame(s, Promoted(s, id, k).info);
  }

  lemma PromotedCounted(s: State, id: int, k: int)
    requires Counted(s.info, s.nTried, s.nNew) && id in s.info && !s.info[id].inTried && 0 <= k < |s.tried|
    ensures var r := Promoted(s, id, k); Counted(r.info, r.nTried, r.nNew)
  {
    hide TriedIds, NewIds;
    PromotedInfo(s, id, k);
    RecountReplace(s.info, id, s.info[id].(refCount := 0, inTried := true));
  }

  lemma PromotedKeepsConsistency(env: Env, key: seq<nat>, s: State, id: int, k: int)
    requires Consistent(env, key, s, {})
    requires id in s.info && !s.info[id].inTried && k == TriedBucket(env, key, s.info[id].service)
    requires |s.tried[k]| < TRIED_BUCKET_SIZE
    ensures Consistent(env, key, Promoted(s, id, k), {})
  {
    assert |s.tried| == TRIED_BUCKET_COUNT;
    hide IdsBelow, AddrIndexed, RandomIndexed, TriedOk, NewOk, Counted, Promoted;
    PromotedIndexes(s, id, k);
    PromotedCounted(s, id, k);
    PromotedTried(env, key, s, id, k);
    PromotedNew(s, id, k);
  }

  // The conditions under which a full bucket makes room by sending `q[pos]` to the new bucket `b`.
  ghost predicate MayExchange(env: Env, key: seq<nat>, s: State, id: int, k: int, q: seq<int>, pos: int, b: int)
  {
    && id in s.info && !s.info[id].inTried && k == TriedBucket(env, key, s.info[id].service)
    && |s.tried| == TRIED_BUCKET_COUNT && TriedBucketOk(env, key, s.info, s.tried[k], k)
    && multiset(q) == multiset(s.tried[k]) && 0 <= pos < |q|
    && 0 <= b < |s.news|
    && (|s.news[b]| < NEW_BUCKET_SIZE || id in s.news[b])
  }

  lemma ExchangedFacts(env: Env, key: seq<nat>, s: State, id: int, k: int, q: seq<int>, pos: int, b: int)
    requires MayExchange(env, key, s, id, k, q, pos, b)
    ensures q[pos] in s.info && s.info[q[pos]].inTried && q[pos] != id
    ensures var r := Exchanged(s, id, k, q, pos, b);
      && r.info.Keys == s.info.Keys
      && r.info[id] == s.info[id].(refCount := 0, inTried := true)
      && r.info[q[pos]] == s.info[q[pos]].(refCount := 1, inTried := false)
      && forall i :: i in s.info && i != id && i != q[pos] ==> r.info[i] == s.info[i]
  {
    PermutedBucket(env, key, s.info, s.tried[k], q, k);
    var out := q[pos];
    assert out in q;
    assert out in s.info && s.info[out].inTried;
  }

  lemma ExchangedTried(env: Env, key: seq<nat>, s: State, id: int, k: int, q: seq<int>, pos: int, b: int)
    requires TriedOk(env, key, s.info, s.tried) && MayExchange(env, key, s, id, k, q, pos, b)
    ensures q[pos] in s.info
    ensures var r := Exchanged(s, id, k, q, pos, b); TriedOk(env, key, r.info, r.tried)
  {
    ExchangedFacts(env, key, s, id, k, q, pos, b);
    PermutedBucket(env, key, s.info, s.tried[k], q, k);
    var r := Exchanged(s, id, k, q, pos, b);
    ExchangedBucket(env, key, s, r.info, id, k, q, pos);
    forall j | 0 <= j < |r.tried| ensures TriedBucketOk(env, key, r.info, r.tried[j], j) {
      assert TriedBucketOk(env, key, s.info, s.tried[j], j);
    }
  }

  lemma ExchangedBucket(env: Env, key: seq<nat>, s: State, info': Table, id: int, k: int, q: seq<int>, pos: int)
    requires TriedBucketOk(env, key, s.info, q, k) && 0 <= pos < |q|
    requires id in s.info && !s.info[id].inTried && k == TriedBucket(env, key, s.info[id].service)
    requires info'.Keys == s.info.Keys
    requires info'[id] == s.info[id].(refCount := 0, inTried := true)
    requires forall i :: i in s.info && i != id && i != q[pos] ==> info'[i] == s.info[i]
    ensures TriedBucketOk(env, key, info', q[pos := id], k)
    ensures forall i :: i in q && i != q[pos] ==> i in q[pos := id]
    ensures id in q[pos := id] && q[pos] !in q[pos := id]
  {
    var q' := q[pos := id];
    assert id !in q;
    assert q'[pos] == id;
    forall i | i in q && i != q[pos] ensures i in q' {
      var j :| 0 <= j < |q| && q[j] == i;
      assert q'[j] == i;
    }
  }

  lemma ExchangedHolding(news: seq<set<int>>, id: int, out: int, b: int, i: int)
    requires 0 <= b < |news| && out != id && Holding(news, out) == 0
    ensures var purged := Purged(news, id);
      Holding(purged[b := purged[b] + {out}], i) == if i == out then 1 else if i == id then 0 else Holding(news, i)
  {
    var purged := Purged(news, id);
    HoldingPurged(news, id, i);
    HoldingUpdate(purged, b, purged[b] + {out}, i);
    assert out !in news[b];
  }

  lemma ExchangedBuckets(news: seq<set<int>>, id: int, out: int, b: int)
    requires 0 <= b < |news|
    requires forall c :: 0 <= c < |news| ==> |news[c]| <= NEW_BUCKET_SIZE
    requires |news[b]| < NEW_BUCKET_SIZE || id in news[b]
    ensures var purged := Purged(news, id);
            var r := purged[b := purged[b] + {out}];
      && (forall c :: 0 <= c < |r| ==> |r[c]| <= NEW_BUCKET_SIZE)
      && (forall c, i :: 0 <= c < |r| && i in r[c] ==> (i in news[c] && i != id) || i == out)
  {
    SmallerBuckets(news, id);
  }

  lemma ExchangedNew(env: Env, key: seq<nat>, s: State, id: int, k: int, q: seq<int>, pos: int, b: int)
    requires NewOk(s.info, s.news, {}) && MayExchange(env, key, s, id, k, q, pos, b)
    ensures q[pos] in s.info
    ensures var r := Exchanged(s, id, k, q, pos, b); NewOk(r.info, r.news, {})
  {
    ExchangedFacts(env, key, s, id, k, q, pos, b);
    var r := Exchanged(s, id, k, q, pos, b);
    var out := q[pos];
    ExchangedBuckets(s.news, id, out, b);
    assert Holding(s.news, out) == 0;
    forall i ensures Holding(r.news, i) == if i == out then 1 else if i == id then 0 else Holding(s.news, i) {
      ExchangedHolding(s.news, id, out, b, i);
    }
  }

  lemma ExchangedCounted(env: Env, key: seq<nat>, s: State, id: int, k: int, q: seq<int>, pos: int, b: int)
    requires Counted(s.info, s.nTried, s.nNew) && MayExchange(env, key, s, id, k, q, pos, b)
    ensures q[pos] in s.info
    ensures var r := Exchanged(s, id, k, q, pos, b); Counted(r.info, r.nTried, r.nNew)
  {
    ExchangedFacts(env, key, s, id, k, q, pos, b);
    var r := Exchanged(s, id, k, q, pos, b);
    var info1 := s.info[id := r.info[id]];
    assert r.info == info1[q[pos] := r.info[q[pos]]];
    hide MayExchange, TriedIds, NewIds, Exchanged, TriedBucketOk;
    RecountReplace(s.info, id, r.info[id]);
    RecountReplace(info1, q[pos], r.info[q[pos]]);
  }

  lemma ExchangedIndexes(env: Env, key: seq<nat>, s: State, id: int, k: int, q: seq<int>, pos: int, b: int)
    requires IdsBelow(s.info, s.idCount) && AddrIndexed(s.info, s.addr) && RandomIndexed(s.info, s.random)
    requires MayExchange(env, key, s, id, k, q, pos, b)
    ensures q[pos] in s.info
    ensures var r := Exchanged(s, id, k, q, pos, b);
      IdsBelow(r.info, r.idCount) && AddrIndexed(r.info, r.addr) && RandomIndexed(r.info, r.random)
  {
    ExchangedFacts(env, key, s, id, k, q, pos, b);
    var r := Exchanged(s, id, k, q, pos, b);
    assert r.idCount == s.idCount && r.addr == s.addr && r.random == s.random;
    hide IdsBelow, AddrIndexed, RandomIndexed, MayExchange, Exchanged;
    IndexFrame(s, r.info);
  }

  lemma ExchangedKeepsConsistency(env: Env, key: seq<nat>, s: State, id: int, k: int, q: seq<int>, pos: int, b: int)
    requires Consistent(env, key, s, {}) && MayExchange(env, key, s, id, k, q, pos, b)
    ensures q[pos] in s.info && Consistent(env, key, Exchanged(s, id, k, q, pos, b), {})
  {
    ExchangedFacts(env, key, s, id, k, q, pos, b);
    hide IdsBelow, AddrIndexed, RandomIndexed, TriedOk, NewOk, MayExchange, Counted, Exchanged;
    ExchangedIndexes(env, key, s, id, k, q, pos, b);
    ExchangedCounted(env, key, s, id, k, q, pos, b);
    ExchangedTried(env, key, s, id, k, q, pos, b);
    ExchangedNew(env, key, s, id, k, q, pos, b);
  }
}
