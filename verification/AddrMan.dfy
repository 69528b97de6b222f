/** The address manager itself (src/addrman.cpp): every method, against the tables of `AddrState`. */
module AddrMan {
  import opened AddrTypes
  import opened AddrState
  import opened AddrSelect
  import opened Arith
  import Ascending

  /** `GetRandInt`: any value below the bound. */
  method GetRandInt(max: int) returns (r: int)
    requires 0 < max
    ensures 0 <= r < max
  {
    r :| 0 <= r < max;
  }

  // ---------------------------------------------------------------- outcomes

  /** The bucket with room that receives an entry sent back from tried: its own, or else `origin`. */
  ghost predicate SentBackTo(env: Env, key: seq<nat>, s: State, id: int, out: int, origin: int, b: int)
    requires out in s.info && |s.news| == NEW_BUCKET_COUNT
  {
    var own := NewBucket(env, key, s.info[out].service, s.info[out].source);
    && 0 <= origin < |s.news| && id in s.news[origin]
    && b == if |Purged(s.news, id)[own]| < NEW_BUCKET_SIZE then own else origin
  }

  /** `s'` is `s` after `draws` shuffled the full bucket of `id` into `q`, and the selected `q[pos]` was sent
      back to `b`. */
  ghost predicate ExchangedVia(env: Env, key: seq<nat>, s: State, id: int, s': State,
                               draws: seq<nat>, q: seq<int>, pos: int, origin: int, b: int)
    requires id in s.info && |s.tried| == TRIED_BUCKET_COUNT && |s.news| == NEW_BUCKET_COUNT
  {
    var k := TriedBucket(env, key, s.info[id].service);
    && SelectedBy(s.info, s.tried[k], draws, q, pos)
    && MayExchange(env, key, s, id, k, q, pos, b)
    && q[pos] in s.info
    && SentBackTo(env, key, s, id, q[pos], origin, b)
    && s' == Exchanged(s, id, k, q, pos, b)
  }

  /** `s'` is `s` after `id` moved from the new buckets to the tried bucket its address selects. */
  ghost predicate MovedToTried(env: Env, key: seq<nat>, s: State, id: int, s': State)
    requires id in s.info && |s.tried| == TRIED_BUCKET_COUNT && |s.news| == NEW_BUCKET_COUNT
  {
    var k := TriedBucket(env, key, s.info[id].service);
    if |s.tried[k]| < TRIED_BUCKET_SIZE then s' == Promoted(s, id, k)
    else exists draws, q, pos, origin, b :: ExchangedVia(env, key, s, id, s', draws, q, pos, origin, b)
  }

  function Succeeded(x: Info, time: int): (r: Info)
    ensures SameIndexing(r, x)
  {
    x.(lastSuccess := time, lastTry := time, time := ToUint32(time), attempts := 0)
  }

  /** Whether `service` is known, port included. */
  predicate Knows(s: State, service: Service)
  {
    service.net in s.addr && s.addr[service.net] in s.info && s.info[s.addr[service.net]].service == service
  }

  /** Everything `Good_` may do, over all random draws. */
  ghost predicate MarkedGood(env: Env, key: seq<nat>, s: State, service: Service, time: int, s': State)
    requires |s.tried| == TRIED_BUCKET_COUNT && |s.news| == NEW_BUCKET_COUNT
  {
    if !Knows(s, service) then s' == s
    else
      var id := s.addr[service.net];
      var s1 := s.(info := s.info[id := Succeeded(s.info[id], time)]);
      if s1.info[id].inTried then s' == s1 else MovedToTried(env, key, s1, id, s')
  }

  function Attempted(s: State, service: Service, time: int): (r: State)
  {
    if !Knows(s, service) then s else
      var id := s.addr[service.net];
      s.(info := s.info[id := s.info[id].(lastTry := time, attempts := s.info[id].attempts + 1)])
  }

  function ConnectedTo(s: State, service: Service, time: int): (r: State)
  {
    if !Knows(s, service) then s else
      var id := s.addr[service.net];
      if time - s.info[id].time > 20 * 60 then s.(info := s.info[id := s.info[id].(time := ToUint32(time))]) else s
  }

  ghost predicate PlacedVia(s: State, b: int, id: int, now: int, s': State, victim: int)
    requires BucketKnown(s, b)
  {
    && MayRemove(s.info, s.news[b], now, victim) && victim in s.info
    && s' == Put(Unref(s, b, victim), b, id)
  }

  /** `s'` is `s` with the pending reference of `id` entered in bucket `b`, at the cost of one member if `b`
      was full. */
  ghost predicate PlacedIn(s: State, b: int, id: int, now: int, s': State)
  {
    && BucketKnown(s, b)
    && if |s.news[b]| < NEW_BUCKET_SIZE then s' == Put(s, b, id)
       else exists victim :: PlacedVia(s, b, id, now, s', victim)
  }

  /** An entry after hearing of it again: its time moves forward once it is stale, and services accumulate. */
  function Refreshed(x: Info, addr: Address, penalty: int, now: int): (r: Info)
    ensures SameIndexing(x, r)
  {
    var online := now - addr.time < 24 * 60 * 60;
    var interval := if online then 60 * 60 else 24 * 60 * 60;
    var time :=
      if addr.time != 0 && (x.time == 0 || x.time < addr.time - interval - penalty)
      then ToUint32(if addr.time - penalty > 0 then addr.time - penalty else 0)
      else x.time;
    x.(time := time, services := x.services | addr.services)
  }

  /** Whether a refreshed entry may be put in one more new bucket. */
  predicate Extendable(x: Info, addr: Address)
  {
    && addr.time != 0 && (x.time == 0 || addr.time > x.time)
    && !x.inTried
    && x.refCount != NEW_BUCKETS_PER_ADDRESS
  }

  function PenalizedTime(addr: Address, penalty: int): (t: int)
  {
    ToUint32(if addr.time - penalty > 0 then addr.time - penalty else 0)
  }

  /** Everything `Add_` may do, over all random draws. */
  ghost predicate Added(env: Env, key: seq<nat>, s: State, addr: Address, source: NetAddr, penalty: int, now: int,
                        fNew: bool, s': State)
    requires Consistent(env, key, s, {})
  {
    var net := addr.service.net;
    if !env.routable(net) then !fNew && s' == s
    else if net in s.addr then
      var id := s.addr[net];
      var x := Refreshed(s.info[id], addr, penalty, now);
      var s1 := s.(info := s.info[id := x]);
      var b := NewBucket(env, key, x.service, source);
      && !fNew
      && (s' == s1 || (Extendable(x, addr) && id !in s1.news[b] && PlacedIn(Ref(s1, id), b, id, now, s')))
    else
      var s1 := Entered(s, addr, source, PenalizedTime(addr, penalty));
      fNew && PlacedIn(s1, NewBucket(env, key, addr.service, source), s.idCount, now, s')
  }

  /** The selection among the first few entries of a tried bucket, shuffled on the way: what is returned is the
      position from which the least recently successful of them was swapped away. */
  method SelectTried(info: Table, bucket: seq<int>) returns (q: seq<int>, pos: int)
    requires forall i :: 0 <= i < |bucket| ==> 0 <= bucket[i] && bucket[i] in info
    ensures multiset(q) == multiset(bucket)
    ensures exists draws :: SelectedBy(info, bucket, draws, q, pos)
  {
    hide Selecting, SelectedBy, Exchange;
    q := bucket;
    var oldest := -1;
    pos := -1;
    ghost var draws: seq<nat> := [];
    SelectingStart(info, bucket);
    var i := 0;
    while i < TRIED_ENTRIES_INSPECT_ON_EVICT && i < |q|
      invariant 0 <= i <= |q| && i <= TRIED_ENTRIES_INSPECT_ON_EVICT && |q| == |bucket| && |draws| == i
      invariant Selecting(info, bucket, draws, q, oldest, pos)
    {
      var r := GetRandInt(|q| - i);
      var nPos := r + i;
      SelectingNext(info, bucket, draws, q, oldest, pos, r);
      var temp := q[nPos];
      q := Exchange(q, i, nPos);
      if oldest == -1 || info[temp].lastSuccess < info[oldest].lastSuccess {
        oldest := temp;
        pos := nPos;
      }
      draws := draws + [r];
      i := i + 1;
    }
    SelectingEnd(info, bucket, draws, q, oldest, pos);
  }

  /** `v` was picked as the oldest of the members of `bucket` at the four positions `picks`; equally
      old ones yield to the lowest id. */
  ghost predicate OldestOfPicks(info: Table, order: seq<int>, picks: seq<int>, v: int)
  {
    && |picks| == 4
    && (forall p :: p in picks ==> 0 <= p < |order| && order[p] in info)
    && (exists p :: p in picks && order[p] == v)
    && (forall p :: p in picks ==>
          info[v].time < info[order[p]].time || (info[v].time == info[order[p]].time && v <= order[p]))
  }

  /** The members of a full new bucket `ShrinkNew` may remove: the lowest terrible one, or, when none
      is terrible, the oldest of four random ones. */
  ghost predicate MayRemove(info: Table, bucket: set<int>, now: int, v: int)
    requires forall id :: id in bucket ==> id in info
  {
    && v in bucket
    && if exists id :: id in bucket && IsTerrible(info[id], now)
       then IsTerrible(info[v], now) && forall id :: id in bucket && id < v ==> !IsTerrible(info[id], now)
       else exists picks :: OldestOfPicks(info, Ascending.Sequence(bucket), picks, v)
  }

  lemma LowerIsEarlier(order: seq<int>, i: int, id: int)
    requires 0 <= i < |order| && id in order && id < order[i]
    requires forall a, b :: 0 <= a < b < |order| ==> order[a] < order[b]
    ensures exists j :: 0 <= j < i && order[j] == id
  {
    var j :| 0 <= j < |order| && order[j] == id;
    assert j < i;
  }

  lemma TerribleFound(info: Table, bucket: set<int>, now: int, order: seq<int>, i: int)
    requires (forall id :: id in bucket ==> id in info) && order == Ascending.Sequence(bucket) && 0 <= i < |order|
    requires (forall j :: 0 <= j < |order| ==> order[j] in bucket) && IsTerrible(info[order[i]], now)
    requires forall j :: 0 <= j < i ==> !IsTerrible(info[order[j]], now)
    ensures MayRemove(info, bucket, now, order[i])
  {
    hide IsTerrible, OldestOfPicks, Ascending.Sequence;
    var v := order[i];
    assert v in bucket && IsTerrible(info[v], now);
    forall id | id in bucket && id < v ensures !IsTerrible(info[id], now) {
      assert id in order;
      LowerIsEarlier(order, i, id);
    }
  }

  lemma NoneTerrible(info: Table, bucket: set<int>, now: int, order: seq<int>, picks: seq<int>, v: int)
    requires (forall id :: id in bucket ==> id in info) && order == Ascending.Sequence(bucket)
    requires (forall j :: 0 <= j < |order| ==> order[j] in bucket && !IsTerrible(info[order[j]], now))
    requires OldestOfPicks(info, order, picks, v)
    ensures MayRemove(info, bucket, now, v) && !IsTerrible(info[v], now)
  {
    hide IsTerrible;
    assert forall id :: id in bucket ==> id in order;
  }

  /** The two searches of `ShrinkNew`, with its return value: 0 for a terrible entry, 1 otherwise. */
  method ChooseVictim(info: Table, bucket: set<int>, now: int) returns (ret: int, victim: int)
    requires bucket != {} && forall id :: id in bucket ==> id in info && 0 <= id
    ensures MayRemove(info, bucket, now, victim)
    ensures ret == if IsTerrible(info[victim], now) then 0 else 1
  {
    hide IsTerrible, OldestOfPicks, MayRemove, Ascending.Sequence;
    var order := Ascending.Sequence(bucket);
    forall i | 0 <= i < |order| ensures order[i] in bucket {
      assert order[i] in order;
    }
    var i := 0;
    while i < |order|
      invariant 0 <= i <= |order|
      invariant forall j :: 0 <= j < i ==> !IsTerrible(info[order[j]], now)
    {
      if IsTerrible(info[order[i]], now) {
        TerribleFound(info, bucket, now, order, i);
        return 0, order[i];
      }
      i := i + 1;
    }
    var n0 := GetRandInt(|order|);
    var n1 := GetRandInt(|order|);
    var n2 := GetRandInt(|order|);
    var n3 := GetRandInt(|order|);
    victim := OldestAmong(info, order, [n0, n1, n2, n3]);
    NoneTerrible(info, bucket, now, order, [n0, n1, n2, n3], victim);
    ret := 1;
  }

  method OldestAmong(info: Table, order: seq<int>, picks: seq<int>) returns (oldest: int)
    requires |picks| == 4 && forall p :: p in picks ==> 0 <= p < |order|
    requires forall i :: 0 <= i < |order| ==> 0 <= order[i] && order[i] in info
    requires forall i, j :: 0 <= i < j < |order| ==> order[i] < order[j]
    ensures OldestOfPicks(info, order, picks, oldest)
  {
    oldest := -1;
    var i := 0;
    ghost var at := -1;
    while i < |order|
      invariant 0 <= i <= |order|
      invariant oldest == -1 ==> forall p :: p in picks ==> i <= p
      invariant oldest != -1 ==> at in picks && 0 <= at < i && order[at] == oldest
      invariant oldest != -1 ==> forall p :: p in picks && p < i ==>
        info[oldest].time < info[order[p]].time || (info[oldest].time == info[order[p]].time && oldest <= order[p])
    {
      if i == picks[0] || i == picks[1] || i == picks[2] || i == picks[3] {
        assert i in picks;
        if oldest == -1 || info[order[i]].time < info[oldest].time {
          oldest := order[i];
          at := i;
        }
      }
      i := i + 1;
    }
    assert picks[0] in picks;
  }

  /** The loop that opens `MakeTried`: erases `id` from every new bucket, one reference for each hit. */
  method EraseEverywhere(news: seq<set<int>>, id: int, refCount: int) returns (r: seq<set<int>>, left: int)
    ensures r == Purged(news, id)
    ensures left == refCount - Holding(news, id)
  {
    r, left := [], refCount;
    var n := 0;
    while n < |news|
      invariant 0 <= n <= |news| && |r| == n
      invariant forall b :: 0 <= b < n ==> r[b] == news[b] - {id}
      invariant left == refCount - Holding(news[..n], id)
    {
      assert news[..n + 1][..n] == news[..n];
      if id in news[n] {
        left := left - 1;
      }
      r := r + [news[n] - {id}];
      n := n + 1;
    }
    assert news[..n] == news;
  }

  /** The `m`-th bucket visited when `n` buckets are scanned from `start`. */
  function Slot(m: int, start: int, n: int): (c: int)
    requires 0 <= m < n && 0 <= start < n
    ensures c == if m + start < n then m + start else m + start - n
  {
    if m + start < n then SmallMod(m + start, n); (m + start) % n
    else DivModUnique(m + start, n, 1, m + start - n); (m + start) % n
  }

  /** The search of `Good_` for a bucket that holds `id`, starting anywhere and wrapping around. */
  method FindBucket(news: seq<set<int>>, id: int, start: int) returns (b: int)
    requires 0 <= start < |news|
    ensures -1 <= b < |news|
    ensures b >= 0 ==> id in news[b]
    ensures b == -1 <==> Holding(news, id) == 0
  {
    hide Slot;
    b := -1;
    var n := 0;
    while n < |news|
      invariant 0 <= n <= |news|
      invariant forall m :: 0 <= m < n ==> id !in news[Slot(m, start, |news|)]
    {
      var nB := Slot(n, start, |news|);
      if id in news[nB] {
        return nB;
      }
      n := n + 1;
    }
    forall c | 0 <= c < |news| ensures id !in news[c] {
      var m := if c >= start then c - start else c - start + |news|;
      assert Slot(m, start, |news|) == c;
    }
  }

  /** What `MakeTried` finds on entry. */
  lemma MakeTriedReady(env: Env, key: seq<nat>, s: State, id: int, origin: int)
    requires Consistent(env, key, s, {}) && 0 <= origin < |s.news| && id in s.news[origin]
    ensures |s.tried| == TRIED_BUCKET_COUNT && |s.news| == NEW_BUCKET_COUNT
    ensures id in s.info && !s.info[id].inTried && s.info[id].refCount == Holding(s.news, id)
    ensures var k := TriedBucket(env, key, s.info[id].service);
      && TriedBucketOk(env, key, s.info, s.tried[k], k)
      && forall i :: 0 <= i < |s.tried[k]| ==> 0 <= s.tried[k][i] && s.tried[k][i] in s.info
  {
    hide AddrIndexed, RandomIndexed, Counted, Holding, TriedBucket;
    var k := TriedBucket(env, key, s.info[id].service);
    assert TriedBucketOk(env, key, s.info, s.tried[k], k);
    hide NewOk;
    forall i | 0 <= i < |s.tried[k]| ensures 0 <= s.tried[k][i] && s.tried[k][i] in s.info {
      var x := s.tried[k][i];
      assert x in s.tried[k];
    }
  }

  lemma PromotedOutcome(env: Env, key: seq<nat>, s: State, id: int, k: int)
    requires Consistent(env, key, s, {}) && id in s.info && !s.info[id].inTried
    requires |s.tried| == TRIED_BUCKET_COUNT && |s.news| == NEW_BUCKET_COUNT
    requires k == TriedBucket(env, key, s.info[id].service) && |s.tried[k]| < TRIED_BUCKET_SIZE
    ensures Consistent(env, key, Promoted(s, id, k), {}) && MovedToTried(env, key, s, id, Promoted(s, id, k))
  {
    hide Consistent;
    PromotedKeepsConsistency(env, key, s, id, k);
  }

  /** There is certainly place: the origin bucket has just lost `id`. */
  lemma ExchangedOutcome(env: Env, key: seq<nat>, s: State, id: int, k: int, draws: seq<nat>, q: seq<int>, pos: int,
                         origin: int, b: int)
    requires Consistent(env, key, s, {}) && |s.tried| == TRIED_BUCKET_COUNT && |s.news| == NEW_BUCKET_COUNT
    requires id in s.info && !s.info[id].inTried && k == TriedBucket(env, key, s.info[id].service)
    requires |s.tried[k]| >= TRIED_BUCKET_SIZE && TriedBucketOk(env, key, s.info, s.tried[k], k)
    requires multiset(q) == multiset(s.tried[k]) && 0 <= pos < |q| && q[pos] in s.info
    requires SelectedBy(s.info, s.tried[k], draws, q, pos)
    requires SentBackTo(env, key, s, id, q[pos], origin, b)
    ensures var r := Exchanged(s, id, k, q, pos, b); Consistent(env, key, r, {}) && MovedToTried(env, key, s, id, r)
    ensures |Purged(s.news, id)[b]| < NEW_BUCKET_SIZE
  {
    assert |s.news[origin]| <= NEW_BUCKET_SIZE;
    SmallerBuckets(s.news, id);
    hide Consistent, TriedBucketOk, NewBucket, TriedBucket, Purged, Exchanged, SelectedBy;
    assert MayExchange(env, key, s, id, k, q, pos, b);
    ExchangedKeepsConsistency(env, key, s, id, k, q, pos, b);
    assert ExchangedVia(env, key, s, id, Exchanged(s, id, k, q, pos, b), draws, q, pos, origin, b);
  }

  lemma EvictChosen(env: Env, key: seq<nat>, s: State, id: int, k: int, q: seq<int>, pos: int)
    requires 0 <= k < |s.tried| && TriedBucketOk(env, key, s.info, s.tried[k], k)
    requires id in s.info && !s.info[id].inTried
    requires multiset(q) == multiset(s.tried[k]) && 0 <= pos < |q|
    ensures q[pos] in s.info && q[pos] != id
  {
    PermutedBucket(env, key, s.info, s.tried[k], q, k);
    var out := q[pos];
    assert out in q;
    assert out in s.info && s.info[out].inTried;
  }

  lemma Sizes(env: Env, key: seq<nat>, s: State)
    requires Consistent(env, key, s, {})
    ensures |s.tried| == TRIED_BUCKET_COUNT && |s.news| == NEW_BUCKET_COUNT
  {
  }

  lemma Indexed(env: Env, key: seq<nat>, s: State)
    requires Consistent(env, key, s, {})
    ensures AddrIndexed(s.info, s.addr) && RandomIndexed(s.info, s.random)
    ensures SameButPositions(s.info, s.info)
  {
  }

  /** An entry that is not tried is in some new bucket, so the search of `Good_` cannot fail. */
  lemma IsSomewhere(env: Env, key: seq<nat>, s: State, id: int)
    requires Consistent(env, key, s, {}) && id in s.info && !s.info[id].inTried
    ensures Holding(s.news, id) > 0
  {
  }

  /** How many entries `GetAddr_` returns out of `n`. */
  function SampleSize(n: nat): (k: int)
    ensures 0 <= k <= n
  {
    var k := GETADDR_MAX_PCT * n / 100;
    if k > GETADDR_MAX then GETADDR_MAX else k
  }

  /** The first `n` of the reordered ids are those of the addresses drawn so far. */
  ghost predicate Sampled(s: State, t: State, n: int, vAddr: seq<Address>)
  {
    && RandomIndexed(t.info, t.random) && SameButPositions(s.info, t.info)
    && t == s.(info := t.info, random := t.random) && multiset(t.random) == multiset(s.random)
    && 0 <= n == |vAddr| <= |t.random| == |s.random|
    && forall i :: 0 <= i < n ==> t.random[i] in s.info && vAddr[i] == ToAddress(s.info[t.random[i]])
  }

  lemma SampleStart(env: Env, key: seq<nat>, s: State)
    requires Consistent(env, key, s, {})
    ensures Sampled(s, s, 0, [])
  {
    hide AddrIndexed, RandomIndexed, TriedOk, NewOk, Counted;
  }

  lemma SameButPositionsTransitive(a: Table, b: Table, c: Table)
    requires SameButPositions(a, b) && SameButPositions(b, c)
    ensures SameButPositions(a, c)
  {
    assert forall id :: id in a ==> id in b && id in c;
  }

  /** An entry reads the same on the wire wherever it stands in `vRandom`. */
  lemma SameOnWire(info: Table, info': Table, id: int)
    requires SameButPositions(info, info')
    ensures id in info' <==> id in info
    ensures id in info ==> ToAddress(info'[id]) == ToAddress(info[id])
  {
  }

  lemma SampleReady(s: State, t: State, n: int, vAddr: seq<Address>, p: int)
    requires Sampled(s, t, n, vAddr) && n <= p < |t.random|
    ensures 0 <= n < |t.random| && t.random[n] in t.info && t.random[p] in t.info
    ensures var r := Swap(t, n, p);
      |r.random| == |t.random| && r.random[n] in r.info && forall i :: 0 <= i < n ==> r.random[i] == t.random[i]
  {
    hide SameButPositions, ToAddress;
    assert t.random[n] in t.info && t.random[p] in t.info;
    hide RandomIndexed;
  }

  lemma SampleStep(s: State, t: State, n: int, vAddr: seq<Address>, p: int)
    requires Sampled(s, t, n, vAddr) && n <= p < |t.random|
    ensures t.random[n] in t.info && t.random[p] in t.info
    ensures var r := Swap(t, n, p);
      |r.random| == |t.random| && r.random[n] in r.info &&
        Sampled(s, r, n + 1, vAddr + [ToAddress(r.info[r.random[n]])])
  {
    hide SameButPositions, ToAddress, RandomIndexed, Swap;
    SampleReady(s, t, n, vAddr, p);
    SwapIndexed(t, n, p);
    var r := Swap(t, n, p);
    SameButPositionsTransitive(s.info, t.info, r.info);
    SameOnWire(s.info, r.info, r.random[n]);
  }

  lemma SampledFields(s: State, t: State, n: int, vAddr: seq<Address>)
    requires Sampled(s, t, n, vAddr)
    ensures |vAddr| == n && SameButPositions(s.info, t.info) && multiset(t.random) == multiset(s.random)
    ensures t == s.(info := t.info, random := t.random)
  {
    hide RandomIndexed, SameButPositions, ToAddress;
  }

  lemma IdsShareNoNet(info: Table, addr: map<NetAddr, int>, random: seq<int>, i: int, j: int)
    requires AddrIndexed(info, addr) && RandomIndexed(info, random) && 0 <= i < j < |random|
    ensures random[i] in info && random[j] in info
    ensures ToAddress(info[random[i]]).service.net != ToAddress(info[random[j]]).service.net
  {
    var id1, id2 := random[i], random[j];
    assert info[id1].randomPos == i && info[id2].randomPos == j;
    assert addr[info[id1].service.net] == id1 && addr[info[id2].service.net] == id2;
  }

  lemma PositionsAside(info: Table, info': Table)
    requires SameButPositions(info, info')
    ensures SameTables(info, info')
  {
  }

  lemma SampleDone(env: Env, key: seq<nat>, s: State, t: State, vAddr: seq<Address>)
    requires Consistent(env, key, s, {}) && Sampled(s, t, |vAddr|, vAddr)
    ensures Consistent(env, key, t, {})
    ensures forall i :: 0 <= i < |vAddr| ==> t.random[i] in t.info && vAddr[i] == ToAddress(t.info[t.random[i]])
    ensures forall i, j :: 0 <= i < j < |vAddr| ==> vAddr[i].service.net != vAddr[j].service.net
  {
    hide Consistent, SameButPositions, SameTables, RandomIndexed, AddrIndexed, ToAddress;
    PositionsAside(s.info, t.info);
    SameTablesKeepConsistency(env, key, s, t, {});
    Indexed(env, key, t);
    forall i | 0 <= i < |vAddr| ensures t.random[i] in t.info && vAddr[i] == ToAddress(t.info[t.random[i]]) {
      SameOnWire(s.info, t.info, t.random[i]);
    }
    forall i, j | 0 <= i < j < |vAddr| ensures vAddr[i].service.net != vAddr[j].service.net {
      IdsShareNoNet(t.info, t.addr, t.random, i, j);
    }
  }

  /** The swap that precedes a deletion leaves the address of the entry alone. */
  lemma SwappedEntry(s: State, id: int)
    requires id in s.info && RandomIndexed(s.info, s.random)
    ensures var p, n := s.info[id].randomPos, |s.random| - 1;
      && 0 <= p <= n && s.random[p] in s.info && s.random[n] in s.info
      && var t := Swap(s, p, n);
        id in t.info && t.info[id].service == s.info[id].service && t.addr == s.addr && t.nNew == s.nNew &&
          t.news == s.news
  {
    DeleteSwaps(s, id);
    DeleteFields(s, id);
    hide RandomIndexed;
  }

  ghost predicate BucketKnown(s: State, b: int)
  {
    && 0 <= b < |s.news|
    && RandomIndexed(s.info, s.random)
    && forall id :: id in s.news[b] ==> id in s.info
  }

  lemma BucketFacts(env: Env, key: seq<nat>, s: State, pending: set<int>, b: int)
    requires Consistent(env, key, s, pending) && 0 <= b < |s.news|
    ensures |s.news[b]| <= NEW_BUCKET_SIZE && BucketKnown(s, b)
    ensures forall id :: id in s.news[b] ==> 0 <= id && !s.info[id].inTried
  {
  }

  lemma VictimInBucket(info: Table, bucket: set<int>, now: int, v: int)
    requires forall id :: id in bucket ==> id in info
    requires MayRemove(info, bucket, now, v)
    ensures v in bucket
  {
  }

  /** Evicting one member of a full bucket leaves room, and the pending entry where it was. */
  lemma ShrinkLeaves(env: Env, key: seq<nat>, s: State, b: int, victim: int, id: int)
    requires Consistent(env, key, s, {id}) && 0 <= b < |s.news|
    requires victim in s.news[b] && id !in s.news[b] && id in s.info && !s.info[id].inTried
    ensures victim in s.info && RandomIndexed(s.info, s.random)
    ensures var r := Unref(s, b, victim);
      && |r.news| == |s.news| && |r.news[b]| == |s.news[b]| - 1 && id !in r.news[b]
      && id in r.info && !r.info[id].inTried
  {
    UnrefTables(s, b, victim);
    hide Unref, AddrIndexed, TriedOk, Counted, Holding;
  }

  lemma AddReady(env: Env, key: seq<nat>, s: State, net: NetAddr)
    requires Consistent(env, key, s, {})
    ensures |s.news| == NEW_BUCKET_COUNT
    ensures net in s.addr ==> s.addr[net] in s.info
  {
  }

  lemma RefBound(env: Env, key: seq<nat>, s: State, id: int)
    requires Consistent(env, key, s, {}) && id in s.info && !s.info[id].inTried
    ensures s.info[id].refCount <= NEW_BUCKETS_PER_ADDRESS
  {
  }

  lemma EnteredReady(env: Env, key: seq<nat>, s: State, addr: Address, source: NetAddr, time: int)
    requires Consistent(env, key, s, {})
    ensures |s.news| == NEW_BUCKET_COUNT && s.idCount !in s.info
    ensures forall b :: 0 <= b < |s.news| ==> s.idCount !in s.news[b]
  {
  }

  /** How much harder each further reference is made: the loop over `nRefCount` in `Add_`. */
  method PowerOfTwo(n: int) returns (factor: int)
    ensures factor == Pow(2, if n < 0 then 0 else n)
  {
    factor := 1;
    var i := 0;
    while i < n
      invariant 0 <= i && (i <= n || i == 0)
      invariant factor == Pow(2, i)
    {
      factor := factor * 2;
      i := i + 1;
    }
  }

  class AddrMan {
    const env: Env
    var nKey: seq<nat>
    var nIdCount: int
    var mapInfo: map<int, Info>
    var mapAddr: map<NetAddr, int>
    var vRandom: seq<int>
    var nTried: int
    var vvTried: seq<seq<int>>
    var nNew: int
    var vvNew: seq<set<int>>

    ghost function Tables(): State
      reads this
    {
      State(mapInfo, mapAddr, vRandom, vvTried, vvNew, nTried, nNew, nIdCount)
    }

    ghost predicate Valid()
      reads this
    {
      Consistent(env, nKey, Tables(), {})
    }

    constructor (env: Env, key: seq<nat>)
      ensures Valid() && this.env == env && nKey == key
      ensures mapInfo == map[] && TimesOk(mapInfo)
    {
      this.env := env;
      nKey := key;
      nIdCount, nTried, nNew := 0, 0, 0;
      mapInfo, mapAddr, vRandom := map[], map[], [];
      vvTried := seq(TRIED_BUCKET_COUNT, _ => []);
      vvNew := seq(NEW_BUCKET_COUNT, _ => {});
      new;
      assert TriedIds(mapInfo) == {};
    }

    method SwapRandom(i: int, j: int)
      requires i != j ==> 0 <= i < |vRandom| && 0 <= j < |vRandom| && vRandom[i] in mapInfo && vRandom[j] in mapInfo
      modifies `mapInfo, `vRandom
      ensures Tables() == Swap(old(Tables()), i, j)
    {
      if i == j {
        return;
      }
      var id1 := vRandom[i];
      var id2 := vRandom[j];
      mapInfo := mapInfo[id1 := mapInfo[id1].(randomPos := j)];
      mapInfo := mapInfo[id2 := mapInfo[id2].(randomPos := i)];
      vRandom := vRandom[i := id2];
      vRandom := vRandom[j := id1];
    }

    /** Forgets an entry: the end of both branches of `ShrinkNew`. */
    method Forget(id: int)
      requires id in mapInfo && RandomIndexed(mapInfo, vRandom)
      modifies `mapInfo, `mapAddr, `vRandom, `nNew
      ensures Tables() == Delete(old(Tables()), id)
    {
      SwappedEntry(Tables(), id);
      hide RandomIndexed, Swap;
      SwapRandom(mapInfo[id].randomPos, |vRandom| - 1);
      vRandom := vRandom[..|vRandom| - 1];
      mapAddr := mapAddr - {mapInfo[id].service.net};
      mapInfo := mapInfo - {id};
      nNew := nNew - 1;
    }

    /** Drops one reference: the common ending of both branches of `ShrinkNew`. */
    method Release(b: int, id: int)
      requires 0 <= b < |vvNew| && id in mapInfo && RandomIndexed(mapInfo, vRandom)
      modifies `mapInfo, `mapAddr, `vRandom, `nNew, `vvNew
      ensures Tables() == Unref(old(Tables()), b, id)
    {
      hide RandomIndexed, Delete;
      DroppedIndexes(mapInfo, vRandom, mapAddr, id);
      mapInfo := mapInfo[id := mapInfo[id].(refCount := mapInfo[id].refCount - 1)];
      if mapInfo[id].refCount == 0 {
        Forget(id);
      }
      vvNew := vvNew[b := vvNew[b] - {id}];
    }

    method ShrinkNew(b: int, now: int, ghost pending: set<int>) returns (ret: int, ghost victim: int)
      requires Consistent(env, nKey, Tables(), pending)
      requires 0 <= b < |vvNew| && vvNew[b] != {} && vvNew[b] !! pending
      modifies `mapInfo, `mapAddr, `vRandom, `nNew, `vvNew
      ensures old(BucketKnown(Tables(), b)) && MayRemove(old(mapInfo), old(vvNew[b]), now, victim)
      ensures !old(mapInfo)[victim].inTried && ret == if IsTerrible(old(mapInfo)[victim], now) then 0 else 1
      ensures Tables() == Unref(old(Tables()), b, victim)
      ensures Consistent(env, nKey, Tables(), pending)
    {
      hide Consistent, RandomIndexed, Unref, MayRemove, IsTerrible;
      BucketFacts(env, nKey, Tables(), pending, b);
      var r, v := ChooseVictim(mapInfo, vvNew[b], now);
      VictimInBucket(mapInfo, vvNew[b], now, v);
      ret, victim := r, v;
      UnrefKeepsConsistency(env, nKey, Tables(), pending, b, v);
      Release(b, v);
    }

    /** Moves an entry from the new buckets to its tried bucket, evicting another back if that is full. */
    method MakeTried(id: int, origin: int)
      requires Valid()
      requires 0 <= origin < |vvNew| && id in vvNew[origin]
      modifies `mapInfo, `vvNew, `vvTried, `nNew, `nTried
      ensures Valid()
      ensures id in old(mapInfo) && MovedToTried(env, nKey, old(Tables()), id, Tables())
    {
      hide Consistent, MovedToTried, TriedBucketOk, Purged, Holding, MarkedTried;
      ghost var s := Tables();
      MakeTriedReady(env, nKey, s, id, origin);
      var news, left := EraseEverywhere(vvNew, id, mapInfo[id].refCount);
      assert left == 0;
      vvNew, nNew, mapInfo := news, nNew - 1, mapInfo[id := mapInfo[id].(refCount := left)];
      var k := TriedBucket(env, nKey, mapInfo[id].service);
      if |vvTried[k]| < TRIED_BUCKET_SIZE {
        vvTried, nTried, mapInfo := vvTried[k := vvTried[k] + [id]], nTried + 1, MarkedTried(mapInfo, id);
        PromotedOutcome(env, nKey, s, id, k);
        return;
      }
      Evict(s, id, origin, k);
    }

    /** The second half of `MakeTried`, entered when the tried bucket is full. */
    method Evict(ghost s: State, id: int, origin: int, k: int)
      requires Consistent(env, nKey, s, {}) && 0 <= origin < |s.news| && id in s.news[origin]
      requires id in s.info && k == TriedBucket(env, nKey, s.info[id].service)
      requires |s.tried| == TRIED_BUCKET_COUNT && |s.news| == NEW_BUCKET_COUNT && |s.tried[k]| >= TRIED_BUCKET_SIZE
      requires Tables() == s.(info := Cleared(s.info, id), news := Purged(s.news, id), nNew := s.nNew - 1)
      modifies `mapInfo, `vvNew, `vvTried, `nNew
      ensures Valid() && MovedToTried(env, nKey, s, id, Tables())
    {
      hide Consistent, TriedBucketOk, MovedToTried, NewBucket, TriedBucket, Purged, MarkedTried, MarkedNew, Holding,
        SelectedBy;
      MakeTriedReady(env, nKey, s, id, origin);
      var q, pos := SelectTried(mapInfo, vvTried[k]);
      ghost var draws :| SelectedBy(mapInfo, vvTried[k], draws, q, pos);
      SelectedInRange(mapInfo, vvTried[k], draws, q, pos);
      SameSelection(mapInfo, s.info, vvTried[k], draws, q, pos);
      var out := q[pos];
      EvictChosen(env, nKey, s, id, k, q, pos);
      var own := NewBucket(env, nKey, mapInfo[out].service, mapInfo[out].source);
      var b := if |vvNew[own]| < NEW_BUCKET_SIZE then own else origin;
      ExchangedOutcome(env, nKey, s, id, k, draws, q, pos, origin, b);
      var info := MarkedTried(MarkedNew(mapInfo, out), id);
      vvNew, nNew, vvTried, mapInfo := vvNew[b := vvNew[b] + {out}], nNew + 1, vvTried[k := q[pos := id]], info;
      assert Tables() == Exchanged(s, id, k, q, pos, b);
    }

    method Find(net: NetAddr) returns (found: bool, id: int)
      ensures found <==> net in mapAddr && mapAddr[net] in mapInfo
      ensures found ==> id == mapAddr[net]
    {
      found, id := false, 0;
      if net in mapAddr {
        id := mapAddr[net];
        found := id in mapInfo;
      }
    }

    method Good(service: Service, time: int)
      requires Valid()
      modifies `mapInfo, `vvNew, `vvTried, `nNew, `nTried
      ensures Valid()
      ensures old(|vvTried| == TRIED_BUCKET_COUNT && |vvNew| == NEW_BUCKET_COUNT)
      ensures MarkedGood(env, nKey, old(Tables()), service, time, Tables())
    {
      hide Consistent, MovedToTried, Holding;
      ghost var s := Tables();
      Sizes(env, nKey, s);
      var found, id := Find(service.net);
      if !found || mapInfo[id].service != service {
        return;
      }
      StatisticsKeepConsistency(env, nKey, s, {}, id, Succeeded(mapInfo[id], time));
      mapInfo := mapInfo[id := Succeeded(mapInfo[id], time)];
      if mapInfo[id].inTried {
        return;
      }
      var start := GetRandInt(|vvNew|);
      var b := FindBucket(vvNew, id, start);
      IsSomewhere(env, nKey, Tables(), id);
      assert b != -1;
      MakeTried(id, b);
    }

    method Attempt(service: Service, time: int)
      requires Valid()
      modifies `mapInfo
      ensures Valid()
      ensures Tables() == Attempted(old(Tables()), service, time)
    {
      hide Consistent;
      var found, id := Find(service.net);
      if !found || mapInfo[id].service != service {
        return;
      }
      var x := mapInfo[id].(lastTry := time, attempts := mapInfo[id].attempts + 1);
      StatisticsKeepConsistency(env, nKey, Tables(), {}, id, x);
      mapInfo := mapInfo[id := x];
    }

    method Connected(service: Service, time: int)
      requires Valid()
      modifies `mapInfo
      ensures Valid()
      ensures Tables() == ConnectedTo(old(Tables()), service, time)
    {
      hide Consistent;
      var found, id := Find(service.net);
      if !found || mapInfo[id].service != service {
        return;
      }
      if time - mapInfo[id].time > 20 * 60 {
        var x := mapInfo[id].(time := ToUint32(time));
        StatisticsKeepConsistency(env, nKey, Tables(), {}, id, x);
        mapInfo := mapInfo[id := x];
      }
    }

    /** A random sample of at most 23 percent of the entries, no entry twice. */
    method GetAddr() returns (vAddr: seq<Address>)
      requires Valid()
      modifies `mapInfo, `vRandom
      ensures Valid()
      ensures Tables() == old(Tables()).(info := mapInfo, random := vRandom)
      ensures SameButPositions(old(mapInfo), mapInfo) && multiset(vRandom) == multiset(old(vRandom))
      ensures |vAddr| == SampleSize(|vRandom|) <= |vRandom|
      ensures forall i :: 0 <= i < |vAddr| ==> vRandom[i] in mapInfo && vAddr[i] == ToAddress(mapInfo[vRandom[i]])
      ensures forall i, j :: 0 <= i < j < |vAddr| ==> vAddr[i].service.net != vAddr[j].service.net
    {
      hide Consistent, RandomIndexed, SameButPositions, ToAddress, Swap, Sampled;
      ghost var s := Tables();
      SampleStart(env, nKey, s);
      var nNodes := SampleSize(|vRandom|);
      vAddr := [];
      var n := 0;
      while n < nNodes
        invariant 0 <= n <= nNodes <= |vRandom| == |s.random|
        invariant Sampled(s, Tables(), n, vAddr)
      {
        var r := GetRandInt(|vRandom| - n);
        SampleStep(s, Tables(), n, vAddr, r + n);
        SwapRandom(n, r + n);
        vAddr := vAddr + [ToAddress(mapInfo[vRandom[n]])];
        n := n + 1;
      }
      SampledFields(s, Tables(), n, vAddr);
      SampleDone(env, nKey, s, Tables(), vAddr);
    }

    /** The end of `Add_`: the bucket the source selects takes the entry, losing a member if it is full. */
    method Place(id: int, b: int, now: int)
      requires Consistent(env, nKey, Tables(), {id})
      requires id in mapInfo && !mapInfo[id].inTried
      requires 0 <= b < |vvNew| && id !in vvNew[b]
      modifies `mapInfo, `mapAddr, `vRandom, `nNew, `vvNew
      ensures Valid() && PlacedIn(old(Tables()), b, id, now, Tables())
    {
      hide Consistent, RandomIndexed, Unref, MayRemove, IsTerrible;
      ghost var s := Tables();
      BucketFacts(env, nKey, s, {id}, b);
      if |vvNew[b]| == NEW_BUCKET_SIZE {
        var ret, victim := ShrinkNew(b, now, {id});
        VictimInBucket(s.info, s.news[b], now, victim);
        ShrinkLeaves(env, nKey, s, b, victim, id);
        PutKeepsConsistency(env, nKey, Tables(), b, id);
        vvNew := vvNew[b := vvNew[b] + {id}];
        assert PlacedVia(s, b, id, now, Tables(), victim);
      } else {
        PutKeepsConsistency(env, nKey, Tables(), b, id);
        vvNew := vvNew[b := vvNew[b] + {id}];
      }
    }

    method Create(addr: Address, source: NetAddr) returns (id: int)
      modifies `mapInfo, `mapAddr, `vRandom, `nIdCount
      ensures id == old(nIdCount) && Tables() == Created(old(Tables()), addr, source)
    {
      id := nIdCount;
      nIdCount := nIdCount + 1;
      mapInfo := mapInfo[id := FreshInfo(addr, source).(randomPos := |vRandom|)];
      mapAddr := mapAddr[addr.service.net := id];
      vRandom := vRandom + [id];
    }

    method Add(addr: Address, source: NetAddr, penalty: int, now: int) returns (fNew: bool)
      requires Valid()
      modifies `mapInfo, `mapAddr, `vRandom, `nNew, `vvNew, `nIdCount
      ensures old(Valid()) && Valid()
      ensures Added(env, nKey, old(Tables()), addr, source, penalty, now, fNew, Tables())
    {
      hide Consistent, PlacedIn, Refreshed, Entered, PenalizedTime;
      ghost var s := Tables();
      AddReady(env, nKey, s, addr.service.net);
      if !env.routable(addr.service.net) {
        return false;
      }
      var found, id := Find(addr.service.net);
      if found {
        fNew := false;
        AddKnown(id, addr, source, penalty, now);
      } else {
        fNew := true;
        AddUnknown(addr, source, penalty, now);
      }
    }

    method AddKnown(id: int, addr: Address, source: NetAddr, penalty: int, now: int)
      requires Valid() && id in mapInfo
      modifies `mapInfo, `mapAddr, `vRandom, `nNew, `vvNew
      ensures Valid() && |old(vvNew)| == NEW_BUCKET_COUNT
      ensures
        var x := Refreshed(old(mapInfo)[id], addr, penalty, now);
        var s1 := old(Tables()).(info := old(mapInfo)[id := x]);
        var b := NewBucket(env, nKey, x.service, source);
        Tables() == s1 || (Extendable(x, addr) && id !in s1.news[b] && PlacedIn(Ref(s1, id), b, id, now, Tables()))
    {
      hide Consistent, PlacedIn, Refreshed;
      ghost var s := Tables();
      Sizes(env, nKey, s);
      var x := Refreshed(mapInfo[id], addr, penalty, now);
      StatisticsKeepConsistency(env, nKey, s, {}, id, x);
      mapInfo := mapInfo[id := x];
      if addr.time == 0 || (x.time != 0 && addr.time <= x.time) {
        return;
      }
      if x.inTried {
        return;
      }
      if x.refCount == NEW_BUCKETS_PER_ADDRESS {
        return;
      }
      var factor := PowerOfTwo(x.refCount);
      if factor > 1 {
        var r := GetRandInt(factor);
        if r != 0 {
          return;
        }
      }
      var b := NewBucket(env, nKey, x.service, source);
      if id !in vvNew[b] {
        RefBound(env, nKey, Tables(), id);
        RefPending(env, nKey, Tables(), id);
        mapInfo := mapInfo[id := mapInfo[id].(refCount := mapInfo[id].refCount + 1)];
        Place(id, b, now);
      }
    }

    method AddUnknown(addr: Address, source: NetAddr, penalty: int, now: int)
      requires Valid() && addr.service.net !in mapAddr
      modifies `mapInfo, `mapAddr, `vRandom, `nNew, `vvNew, `nIdCount
      ensures Valid()
      ensures PlacedIn(Entered(old(Tables()), addr, source, PenalizedTime(addr, penalty)),
                       NewBucket(env, nKey, addr.service, source), old(nIdCount), now, Tables())
    {
      hide Consistent, PlacedIn;
      ghost var s := Tables();
      EnteredPending(env, nKey, s, addr, source, PenalizedTime(addr, penalty));
      EnteredReady(env, nKey, s, addr, source, PenalizedTime(addr, penalty));
      var id := Create(addr, source);
      mapInfo := mapInfo[id := mapInfo[id].(time := PenalizedTime(addr, penalty))];
      nNew := nNew + 1;
      var b := NewBucket(env, nKey, mapInfo[id].service, source);
      if id !in vvNew[b] {
        mapInfo := mapInfo[id := mapInfo[id].(refCount := mapInfo[id].refCount + 1)];
        assert Tables() == Entered(s, addr, source, PenalizedTime(addr, penalty));
        Place(id, b, now);
      }
    }
  }
}
