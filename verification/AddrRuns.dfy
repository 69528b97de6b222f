/** Whole runs of the address manager: what every operation keeps, and what that means for `Check_`,
    for the capacity of the tables and for what can be forgotten. */
module AddrRuns {
  import opened AddrTypes
  import opened AddrState
  import opened AddrSelect
  import opened AddrMan
  import opened AddrCheck
  import Ascending

  // ---------------------------------------------------------------- consistent tables pass the check

  lemma {:induction false} OccurrencesUpto(env: Env, key: seq<nat>, info: Table, tried: seq<seq<int>>, n: nat, id: int)
    requires TriedOk(env, key, info, tried) && n <= |tried|
    ensures Occurrences(tried[..n], id)
         == if id in info && info[id].inTried && TriedBucket(env, key, info[id].service) < n then 1 else 0
  {
    if n > 0 {
      OccurrencesUpto(env, key, info, tried, n - 1, id);
      assert tried[..n][..n - 1] == tried[..n - 1];
      assert TriedBucketOk(env, key, info, tried[n - 1], n - 1);
      DistinctMultiset(tried[n - 1]);
      assert id in tried[n - 1] <==> multiset(tried[n - 1])[id] > 0;
    }
  }

  lemma {:induction false} DistinctCount(q: seq<int>)
    requires Distinct(q)
    ensures |Elements(q)| == |q|
  {
    if q != [] {
      var last := |q| - 1;
      DistinctCount(q[..last]);
      assert Elements(q) == Elements(q[..last]) + {q[last]};
    }
  }

  lemma RandomCount(info: Table, random: seq<int>)
    requires RandomIndexed(info, random)
    ensures |random| == |info.Keys|
  {
    DistinctCount(random);
    forall id ensures id in Elements(random) <==> id in info.Keys {
      if id in info { assert random[info[id].randomPos] in random; }
    }
    Ascending.SameSet(Elements(random), info.Keys);
  }

  lemma CountsAddUp(info: Table)
    ensures |info.Keys| == |TriedIds(info)| + |NewIds(info)|
  {
    assert TriedIds(info) <= info.Keys;
    assert info.Keys == TriedIds(info) + NewIds(info);
  }

  lemma EntriesPass(env: Env, key: seq<nat>, s: State)
    requires Consistent(env, key, s, {}) && TimesOk(s.info)
    ensures EntriesSound(s)
  {
    hide TriedBucketOk;
  }

  /** `Check_` accepts every consistent state with sane time stamps. */
  lemma ConsistentPassesCheck(env: Env, key: seq<nat>, s: State)
    requires Consistent(env, key, s, {}) && TimesOk(s.info)
    ensures Sound(s)
  {
    hide EntriesSound, RandomIndexed, AddrIndexed, TriedIds, NewIds;
    EntriesPass(env, key, s);
    RandomCount(s.info, s.random);
    CountsAddUp(s.info);
    forall id ensures Occurrences(s.tried, id) == if id in s.info && s.info[id].inTried then 1 else 0 {
      OccurrencesUpto(env, key, s.info, s.tried, |s.tried|, id);
      assert s.tried[..|s.tried|] == s.tried;
    }
    forall id ensures Holding(s.news, id) == if id in s.info && !s.info[id].inTried then s.info[id].refCount else 0 {
      NotHeld(s, id);
    }
  }

  lemma NotHeld(s: State, id: int)
    requires NewOk(s.info, s.news, {})
    ensures Holding(s.news, id) == if id in s.info && !s.info[id].inTried then s.info[id].refCount else 0
  {
  }

  // ---------------------------------------------------------------- capacity

  ghost function AllTried(tried: seq<seq<int>>): (ids: set<int>)
  {
    if tried == [] then {} else AllTried(tried[..|tried| - 1]) + Elements(tried[|tried| - 1])
  }

  ghost function AllNew(news: seq<set<int>>): (ids: set<int>)
    ensures forall b :: 0 <= b < |news| ==> news[b] <= ids
  {
    if news == [] then {} else AllNew(news[..|news| - 1]) + news[|news| - 1]
  }

  lemma {:induction false} AllTriedHas(tried: seq<seq<int>>, k: int, id: int)
    requires 0 <= k < |tried| && id in tried[k]
    ensures id in AllTried(tried)
  {
    if k < |tried| - 1 {
      AllTriedHas(tried[..|tried| - 1], k, id);
    }
  }

  lemma {:induction false} ElementsBound(q: seq<int>)
    ensures |Elements(q)| <= |q|
  {
    if q != [] {
      var last := |q| - 1;
      ElementsBound(q[..last]);
      assert Elements(q) == Elements(q[..last]) + {q[last]};
    }
  }

  lemma {:induction false} AllTriedBound(tried: seq<seq<int>>, size: nat)
    requires forall k :: 0 <= k < |tried| ==> |tried[k]| <= size
    ensures |AllTried(tried)| <= |tried| * size
  {
    hide Elements;
    if tried != [] {
      var last := |tried| - 1;
      AllTriedBound(tried[..last], size);
      ElementsBound(tried[last]);
      UnionCount(AllTried(tried[..last]), Elements(tried[last]));
      assert |tried| * size == last * size + size;
    }
  }

  lemma {:induction false} AllNewBound(news: seq<set<int>>, size: nat)
    requires forall b :: 0 <= b < |news| ==> |news[b]| <= size
    ensures |AllNew(news)| <= |news| * size
  {
    if news != [] {
      var last := |news| - 1;
      AllNewBound(news[..last], size);
      assert |news| * size == last * size + size;
    }
  }

  lemma UnionCount<T>(a: set<T>, b: set<T>)
    ensures |a + b| <= |a| + |b|
  {
    assert a + b == a + (b - a);
    assert b == (b - a) + (b * a);
  }

  lemma SubsetCount<T>(a: set<T>, b: set<T>)
    requires a <= b
    ensures |a| <= |b|
  {
    assert b == a + (b - a);
  }

  lemma TriedCapacity(env: Env, key: seq<nat>, info: Table, tried: seq<seq<int>>)
    requires TriedOk(env, key, info, tried)
    ensures |TriedIds(info)| <= TRIED_BUCKET_COUNT * TRIED_BUCKET_SIZE
  {
    forall k | 0 <= k < |tried| ensures |tried[k]| <= TRIED_BUCKET_SIZE {
      assert TriedBucketOk(env, key, info, tried[k], k);
    }
    AllTriedBound(tried, TRIED_BUCKET_SIZE);
    forall id | id in TriedIds(info) ensures id in AllTried(tried) {
      AllTriedHas(tried, TriedBucket(env, key, info[id].service), id);
    }
    SubsetCount(TriedIds(info), AllTried(tried));
  }

  lemma NewCapacity(info: Table, news: seq<set<int>>)
    requires NewOk(info, news, {})
    ensures |NewIds(info)| <= NEW_BUCKET_COUNT * NEW_BUCKET_SIZE
  {
    AllNewBound(news, NEW_BUCKET_SIZE);
    forall id | id in NewIds(info) ensures id in AllNew(news) {
      assert id in info && !info[id].inTried;
      assert Holding(news, id) > 0;
      var b :| 0 <= b < |news| && id in news[b];
    }
    SubsetCount(NewIds(info), AllNew(news));
  }

  /** The number of addresses never exceeds 64 * 64 tried and 256 * 64 new ones. */
  lemma Capacity(env: Env, key: seq<nat>, s: State)
    requires Consistent(env, key, s, {})
    ensures 0 <= s.nTried <= TRIED_BUCKET_COUNT * TRIED_BUCKET_SIZE
    ensures 0 <= s.nNew <= NEW_BUCKET_COUNT * NEW_BUCKET_SIZE
    ensures |s.info.Keys| == |s.addr| == |s.random| == s.nTried + s.nNew
  {
    hide TriedOk, NewOk, AddrIndexed, RandomIndexed, TriedIds, NewIds;
    TriedCapacity(env, key, s.info, s.tried);
    NewCapacity(s.info, s.news);
    RandomCount(s.info, s.random);
    CountsAddUp(s.info);
    AddrCount(s.info, s.addr);
  }

  lemma AddrCount(info: Table, addr: map<NetAddr, int>)
    requires AddrIndexed(info, addr)
    ensures |addr| == |info.Keys|
    decreases |info.Keys|
  {
    if info.Keys == {} {
      assert forall a :: a in addr ==> addr[a] in info.Keys;
    } else {
      var id := Ascending.Pick(info.Keys);
      var net := info[id].service.net;
      AddrCount(info - {id}, addr - {net});
      assert (info - {id}).Keys == info.Keys - {id};
      assert (addr - {net}).Keys == addr.Keys - {net};
    }
  }

  // ---------------------------------------------------------------- single operations

  datatype Op =
    | OpAdd(addr: Address, source: NetAddr, penalty: int, now: int)
    | OpGood(service: Service, time: int)
    | OpAttempt(service: Service, time: int)
    | OpConnected(service: Service, time: int)
    | OpGetAddr

  /** The transitions the methods of the address manager are proved to make. */
  ghost predicate Step(env: Env, key: seq<nat>, s: State, op: Op, s': State)
    requires Consistent(env, key, s, {})
  {
    match op
    case OpAdd(addr, source, penalty, now) =>
      exists fNew :: Added(env, key, s, addr, source, penalty, now, fNew, s')
    case OpGood(service, time) => MarkedGood(env, key, s, service, time, s')
    case OpAttempt(service, time) => s' == Attempted(s, service, time)
    case OpConnected(service, time) => s' == ConnectedTo(s, service, time)
    case OpGetAddr =>
      s' == s.(info := s'.info, random := s'.random) && SameButPositions(s.info, s'.info) &&
        RandomIndexed(s'.info, s'.random)
  }

  /** A positive success time and a non-negative attempt time, as the clock yields them. */
  predicate Timely(op: Op)
  {
    (op.OpGood? ==> op.time > 0) && (op.OpAttempt? ==> op.time >= 0)
  }

  lemma MovedKeepsConsistency(env: Env, key: seq<nat>, s: State, id: int, s': State)
    requires Consistent(env, key, s, {}) && id in s.info && !s.info[id].inTried
    requires |s.tried| == TRIED_BUCKET_COUNT && |s.news| == NEW_BUCKET_COUNT
    requires MovedToTried(env, key, s, id, s')
    ensures Consistent(env, key, s', {})
  {
    hide Consistent, Exchanged, Promoted, SelectedBy;
    var k := TriedBucket(env, key, s.info[id].service);
    if |s.tried[k]| < TRIED_BUCKET_SIZE {
      PromotedKeepsConsistency(env, key, s, id, k);
    } else {
      var draws, q, pos, origin, b :| ExchangedVia(env, key, s, id, s', draws, q, pos, origin, b);
      ExchangedKeepsConsistency(env, key, s, id, k, q, pos, b);
    }
  }

  /** What `MakeTried` changes: `id` becomes tried, at most one tried entry goes back, nothing is forgotten. */
  lemma MovedEffect(env: Env, key: seq<nat>, s: State, id: int, s': State)
    requires Consistent(env, key, s, {}) && id in s.info && !s.info[id].inTried
    requires |s.tried| == TRIED_BUCKET_COUNT && |s.news| == NEW_BUCKET_COUNT
    requires MovedToTried(env, key, s, id, s')
    ensures s'.info.Keys == s.info.Keys && s'.addr == s.addr && s'.random == s.random && s'.idCount == s.idCount
    ensures s'.info[id] == s.info[id].(refCount := 0, inTried := true)
    ensures s'.info == s.info[id := s'.info[id]]
      || exists out :: out in TriedIds(s.info) && out != id
           && s'.info == s.info[id := s'.info[id]][out := s.info[out].(refCount := 1, inTried := false)]
  {
    hide Consistent, Holding, Purged, SelectedBy;
    var k := TriedBucket(env, key, s.info[id].service);
    if |s.tried[k]| < TRIED_BUCKET_SIZE {
      PromotedInfo(s, id, k);
    } else {
      var draws, q, pos, origin, b :| ExchangedVia(env, key, s, id, s', draws, q, pos, origin, b);
      ExchangedFacts(env, key, s, id, k, q, pos, b);
      var out := q[pos];
      assert s'.info == s.info[id := s'.info[id]][out := s.info[out].(refCount := 1, inTried := false)];
    }
  }

  lemma PlacedKeepsConsistency(env: Env, key: seq<nat>, s: State, b: int, id: int, now: int, s': State)
    requires Consistent(env, key, s, {id}) && id in s.info && !s.info[id].inTried
    requires 0 <= b < |s.news| && id !in s.news[b] && PlacedIn(s, b, id, now, s')
    ensures Consistent(env, key, s', {})
  {
    hide Consistent, MayRemove, Unref, Put;
    BucketFacts(env, key, s, {id}, b);
    if |s.news[b]| < NEW_BUCKET_SIZE {
      PutKeepsConsistency(env, key, s, b, id);
    } else {
      var victim :| PlacedVia(s, b, id, now, s', victim);
      VictimInBucket(s.info, s.news[b], now, victim);
      UnrefKeepsConsistency(env, key, s, {id}, b, victim);
      ShrinkLeaves(env, key, s, b, victim, id);
      PutKeepsConsistency(env, key, Unref(s, b, victim), b, id);
    }
  }

  lemma AddedKeepsConsistency(env: Env, key: seq<nat>, s: State, addr: Address, source: NetAddr, penalty: int, now: int,
                              fNew: bool, s': State)
    requires Consistent(env, key, s, {}) && Added(env, key, s, addr, source, penalty, now, fNew, s')
    ensures Consistent(env, key, s', {})
  {
    hide Consistent, PlacedIn, Refreshed, Entered, PenalizedTime, NewBucket;
    var net := addr.service.net;
    AddReady(env, key, s, net);
    if env.routable(net) {
      if net in s.addr {
        var id := s.addr[net];
        var x := Refreshed(s.info[id], addr, penalty, now);
        var s1 := s.(info := s.info[id := x]);
        StatisticsKeepConsistency(env, key, s, {}, id, x);
        if s' != s1 {
          RefBound(env, key, s1, id);
          RefPending(env, key, s1, id);
          PlacedKeepsConsistency(env, key, Ref(s1, id), NewBucket(env, key, x.service, source), id, now, s');
        }
      } else {
        EnteredPending(env, key, s, addr, source, PenalizedTime(addr, penalty));
        EnteredReady(env, key, s, addr, source, PenalizedTime(addr, penalty));
        EnteredInfo(s, addr, source, PenalizedTime(addr, penalty));
        PlacedKeepsConsistency(env, key, Entered(s, addr, source, PenalizedTime(addr, penalty)),
                               NewBucket(env, key, addr.service, source), s.idCount, now, s');
      }
    }
  }

  lemma GoodKeepsConsistency(env: Env, key: seq<nat>, s: State, service: Service, time: int, s': State)
    requires Consistent(env, key, s, {}) && MarkedGood(env, key, s, service, time, s')
    ensures Consistent(env, key, s', {})
  {
    hide Consistent, MovedToTried;
    Sizes(env, key, s);
    if Knows(s, service) {
      var id := s.addr[service.net];
      StatisticsKeepConsistency(env, key, s, {}, id, Succeeded(s.info[id], time));
      var s1 := s.(info := s.info[id := Succeeded(s.info[id], time)]);
      if !s1.info[id].inTried {
        MovedKeepsConsistency(env, key, s1, id, s');
      }
    }
  }

  lemma StepKeepsConsistency(env: Env, key: seq<nat>, s: State, op: Op, s': State)
    requires Consistent(env, key, s, {}) && Step(env, key, s, op, s')
    ensures Consistent(env, key, s', {})
  {
    hide Consistent, Added, MarkedGood;
    match op
    case OpAdd(addr, source, penalty, now) =>
      var fNew :| Added(env, key, s, addr, source, penalty, now, fNew, s');
      AddedKeepsConsistency(env, key, s, addr, source, penalty, now, fNew, s');
    case OpGood(service, time) =>
      GoodKeepsConsistency(env, key, s, service, time, s');
    case OpAttempt(service, time) =>
      if Knows(s, service) {
        var id := s.addr[service.net];
        StatisticsKeepConsistency(env, key, s, {}, id, s'.info[id]);
      }
    case OpConnected(service, time) =>
      if s' != s {
        var id := s.addr[service.net];
        StatisticsKeepConsistency(env, key, s, {}, id, s'.info[id]);
      }
    case OpGetAddr =>
      SameTablesKeepConsistency(env, key, s, s', {});
  }

  // ---------------------------------------------------------------- what can be forgotten

  /** `Good_` on a known address with matching port always ends with it tried, and forgets nothing. */
  lemma GoodEndsTried(env: Env, key: seq<nat>, s: State, service: Service, time: int, s': State)
    requires Consistent(env, key, s, {}) && MarkedGood(env, key, s, service, time, s') && Knows(s, service)
    ensures var id := s.addr[service.net];
      && s'.info.Keys == s.info.Keys && s'.addr == s.addr && s'.random == s.random
      && s'.info[id].inTried && s'.info[id].lastSuccess == time && s'.info[id].service == service
      && (s.info[id].inTried || s'.nTried == s.nTried + 1 || s'.nTried == s.nTried)
  {
    hide Consistent, MovedToTried;
    Sizes(env, key, s);
    var id := s.addr[service.net];
    StatisticsKeepConsistency(env, key, s, {}, id, Succeeded(s.info[id], time));
    var s1 := s.(info := s.info[id := Succeeded(s.info[id], time)]);
    if !s1.info[id].inTried {
      MovedEffect(env, key, s1, id, s');
      MovedCounts(env, key, s1, id, s');
    }
  }

  lemma MovedCounts(env: Env, key: seq<nat>, s: State, id: int, s': State)
    requires id in s.info && |s.tried| == TRIED_BUCKET_COUNT && |s.news| == NEW_BUCKET_COUNT
    requires MovedToTried(env, key, s, id, s')
    ensures s'.nTried == s.nTried + 1 || s'.nTried == s.nTried
  {
  }

  /** What `Add_` never changes in an entry that stays. */
  predicate SameHistory(x: Info, y: Info)
  {
    x.service == y.service && x.source == y.source && x.inTried == y.inTried
    && x.lastTry == y.lastTry && x.lastSuccess == y.lastSuccess && x.attempts == y.attempts
  }

  /** No entry but `lost` disappears, none but those of `added` appears, and those that stay keep their history. */
  ghost predicate Keeps(info: Table, info': Table, lost: int, added: set<int>)
  {
    && (forall id :: id in info && id != lost ==> id in info')
    && (forall id :: id in info' && id !in added ==> id in info && SameHistory(info[id], info'[id]))
  }

  ghost predicate KeepsTried(info: Table, info': Table, lost: int, added: set<int>)
  {
    Keeps(info, info', lost, added) && (lost in info ==> !info[lost].inTried)
  }

  lemma PlacedEffect(env: Env, key: seq<nat>, s: State, b: int, id: int, now: int, s': State)
    requires Consistent(env, key, s, {id}) && id in s.info && !s.info[id].inTried
    requires 0 <= b < |s.news| && id !in s.news[b] && PlacedIn(s, b, id, now, s')
    ensures exists lost :: KeepsTried(s.info, s'.info, lost, {}) && lost != id
  {
    hide Consistent, MayRemove, Unref, SameHistory;
    BucketFacts(env, key, s, {id}, b);
    if |s.news[b]| < NEW_BUCKET_SIZE {
      NegativeUnknown(env, key, s, id);
      KeepsSame(s.info);
      assert KeepsTried(s.info, s'.info, -1, {});
    } else {
      var victim :| PlacedVia(s, b, id, now, s', victim);
      VictimInBucket(s.info, s.news[b], now, victim);
      UnrefKeeps(s, b, victim);
      assert KeepsTried(s.info, s'.info, victim, {});
    }
  }

  lemma NegativeUnknown(env: Env, key: seq<nat>, s: State, id: int)
    requires Consistent(env, key, s, {id})
    ensures -1 !in s.info
  {
  }

  lemma KeepsSame(info: Table)
    ensures Keeps(info, info, -1, {})
  {
  }

  lemma UnrefKeeps(s: State, b: int, id: int)
    requires 0 <= b < |s.news| && id in s.info && RandomIndexed(s.info, s.random)
    ensures Keeps(s.info, Unref(s, b, id).info, id, {})
  {
    UnrefTables(s, b, id);
    var r := Unref(s, b, id);
    assert forall i :: i in r.info <==> i in r.info.Keys;
  }

  lemma AddKnownEffect(env: Env, key: seq<nat>, s: State, addr: Address, source: NetAddr, penalty: int, now: int,
      s': State)
    requires Consistent(env, key, s, {}) && Added(env, key, s, addr, source, penalty, now, false, s')
    requires env.routable(addr.service.net) && addr.service.net in s.addr
    ensures exists lost :: KeepsTried(s.info, s'.info, lost, {})
  {
    hide Consistent, PlacedIn, NewBucket;
    AddReady(env, key, s, addr.service.net);
    var id := s.addr[addr.service.net];
    var x := Refreshed(s.info[id], addr, penalty, now);
    var s1 := s.(info := s.info[id := x]);
    StatisticsKeepConsistency(env, key, s, {}, id, x);
    if s' == s1 {
      assert Keeps(s.info, s'.info, id, {});
      assert KeepsTried(s.info, s'.info, s.idCount, {}) by { EnteredReady(env, key, s, addr, source, 0); }
    } else {
      RefBound(env, key, s1, id);
      RefPending(env, key, s1, id);
      PlacedEffect(env, key, Ref(s1, id), NewBucket(env, key, x.service, source), id, now, s');
      var lost :| KeepsTried(Ref(s1, id).info, s'.info, lost, {}) && lost != id;
      assert KeepsTried(s.info, s'.info, lost, {});
    }
  }

  lemma AddUnknownEffect(env: Env, key: seq<nat>, s: State, addr: Address, source: NetAddr, penalty: int, now: int,
      s': State)
    requires Consistent(env, key, s, {}) && Added(env, key, s, addr, source, penalty, now, true, s')
    requires env.routable(addr.service.net) && addr.service.net !in s.addr
    ensures exists lost :: KeepsTried(s.info, s'.info, lost, {s.idCount})
    ensures s.idCount in s'.info && SameHistory(s'.info[s.idCount], FreshInfo(addr, source))
  {
    hide Consistent, PlacedIn, NewBucket, Entered;
    var time := PenalizedTime(addr, penalty);
    var s1 := Entered(s, addr, source, time);
    EnteredPending(env, key, s, addr, source, time);
    EnteredReady(env, key, s, addr, source, time);
    EnteredInfo(s, addr, source, time);
    PlacedEffect(env, key, s1, NewBucket(env, key, addr.service, source), s.idCount, now, s');
    var lost :| KeepsTried(s1.info, s'.info, lost, {}) && lost != s.idCount;
    assert KeepsTried(s.info, s'.info, lost, {s.idCount});
  }

  /** `Add_` forgets at most one entry, and never a tried one; whatever stays keeps its history. */
  lemma AddForgetsAtMostOne(env: Env, key: seq<nat>, s: State, addr: Address, source: NetAddr, penalty: int, now: int,
                            fNew: bool, s': State)
    requires Consistent(env, key, s, {}) && Added(env, key, s, addr, source, penalty, now, fNew, s')
    ensures var added := if fNew then {s.idCount} else {}; exists lost :: KeepsTried(s.info, s'.info, lost, added)
    ensures fNew <==> env.routable(addr.service.net) && addr.service.net !in s.addr
    ensures fNew ==> s.idCount in s'.info && SameHistory(s'.info[s.idCount], FreshInfo(addr, source))
  {
    hide Consistent, PlacedIn, Refreshed, Entered, PenalizedTime, NewBucket, FreshInfo;
    AddReady(env, key, s, addr.service.net);
    if !env.routable(addr.service.net) {
      EnteredReady(env, key, s, addr, source, 0);
      assert KeepsTried(s.info, s'.info, s.idCount, {});
    } else if addr.service.net in s.addr {
      AddKnownEffect(env, key, s, addr, source, penalty, now, s');
    } else {
      AddUnknownEffect(env, key, s, addr, source, penalty, now, s');
    }
  }

  /** Only `Add_` forgets entries; tried ones survive every operation. */
  lemma TriedSurvive(env: Env, key: seq<nat>, s: State, op: Op, s': State, id: int)
    requires Consistent(env, key, s, {}) && Step(env, key, s, op, s')
    requires id in s.info && (s.info[id].inTried || !op.OpAdd?)
    ensures id in s'.info && s'.info[id].service == s.info[id].service
  {
    hide Consistent, Added, MovedToTried;
    match op
    case OpAdd(addr, source, penalty, now) =>
      var fNew :| Added(env, key, s, addr, source, penalty, now, fNew, s');
      AddForgetsAtMostOne(env, key, s, addr, source, penalty, now, fNew, s');
      EnteredReady(env, key, s, addr, source, 0);
    case OpGood(service, time) =>
      if Knows(s, service) {
        GoodEndsTried(env, key, s, service, time, s');
        GoodServices(env, key, s, service, time, s', id);
      }
    case OpAttempt(service, time) =>
    case OpConnected(service, time) =>
    case OpGetAddr =>
  }

  lemma GoodServices(env: Env, key: seq<nat>, s: State, service: Service, time: int, s': State, i: int)
    requires Consistent(env, key, s, {}) && MarkedGood(env, key, s, service, time, s') && Knows(s, service)
    requires i in s.info && i in s'.info
    ensures s'.info[i].service == s.info[i].service
    ensures i != s.addr[service.net] ==>
      s'.info[i].lastTry == s.info[i].lastTry && s'.info[i].lastSuccess == s.info[i].lastSuccess
    ensures i != s.addr[service.net] && s'.info[i].inTried ==> s.info[i].inTried
  {
    hide Consistent, MovedToTried;
    Sizes(env, key, s);
    var id := s.addr[service.net];
    StatisticsKeepConsistency(env, key, s, {}, id, Succeeded(s.info[id], time));
    var s1 := s.(info := s.info[id := Succeeded(s.info[id], time)]);
    if !s1.info[id].inTried {
      MovedEffect(env, key, s1, id, s');
    }
  }

  // ---------------------------------------------------------------- runs

  lemma StepKeepsTimes(env: Env, key: seq<nat>, s: State, op: Op, s': State)
    requires Consistent(env, key, s, {}) && Step(env, key, s, op, s') && TimesOk(s.info) && Timely(op)
    ensures TimesOk(s'.info)
  {
    hide Consistent, Added, MovedToTried;
    match op
    case OpAdd(addr, source, penalty, now) =>
      var fNew :| Added(env, key, s, addr, source, penalty, now, fNew, s');
      AddForgetsAtMostOne(env, key, s, addr, source, penalty, now, fNew, s');
    case OpGood(service, time) =>
      if Knows(s, service) {
        GoodEndsTried(env, key, s, service, time, s');
        GoodTimes(env, key, s, service, time, s');
      }
    case OpAttempt(service, time) =>
    case OpConnected(service, time) =>
    case OpGetAddr =>
  }

  lemma GoodTimes(env: Env, key: seq<nat>, s: State, service: Service, time: int, s': State)
    requires Consistent(env, key, s, {}) && MarkedGood(env, key, s, service, time, s') && Knows(s, service)
    requires TimesOk(s.info) && time > 0
    ensures TimesOk(s'.info)
  {
    hide Consistent, MarkedGood;
    GoodEndsTried(env, key, s, service, time, s');
    GoodLastTry(env, key, s, service, time, s');
    forall i | i in s'.info
      ensures 0 <= s'.info[i].lastTry && 0 <= s'.info[i].lastSuccess &&
        (s'.info[i].inTried ==> s'.info[i].lastSuccess != 0)
    {
      assert i in s'.info.Keys;
      GoodServices(env, key, s, service, time, s', i);
    }
  }

  lemma GoodLastTry(env: Env, key: seq<nat>, s: State, service: Service, time: int, s': State)
    requires Consistent(env, key, s, {}) && MarkedGood(env, key, s, service, time, s') && Knows(s, service)
    ensures s.addr[service.net] in s'.info && s'.info[s.addr[service.net]].lastTry == time
  {
    hide Consistent, MovedToTried;
    Sizes(env, key, s);
    var id := s.addr[service.net];
    StatisticsKeepConsistency(env, key, s, {}, id, Succeeded(s.info[id], time));
    var s1 := s.(info := s.info[id := Succeeded(s.info[id], time)]);
    if !s1.info[id].inTried {
      MovedEffect(env, key, s1, id, s');
    }
  }

  function EmptyTables(): (s: State)
  {
    State(map[], map[], [], seq(TRIED_BUCKET_COUNT, _ => []), seq(NEW_BUCKET_COUNT, _ => {}), 0, 0, 0)
  }

  /** A run: each state follows from the one before by the operation at that place. (Steps are defined
      from consistent tables; that all tables of a run are consistent is proved below, not assumed.) */
  ghost predicate Run(env: Env, key: seq<nat>, ops: seq<Op>, states: seq<State>)
  {
    && |states| == |ops| + 1
    && states[0] == EmptyTables()
    && forall i :: 0 <= i < |ops| ==> Consistent(env, key, states[i], {}) ==>
      Step(env, key, states[i], ops[i], states[i + 1])
  }

  lemma EmptyConsistent(env: Env, key: seq<nat>)
    ensures Consistent(env, key, EmptyTables(), {}) && TimesOk(EmptyTables().info)
  {
    var s := EmptyTables();
    assert TriedIds(s.info) == {};
    assert forall k :: 0 <= k < |s.tried| ==> TriedBucketOk(env, key, s.info, s.tried[k], k);
  }

  lemma {:induction false} RunConsistent(env: Env, key: seq<nat>, ops: seq<Op>, states: seq<State>, i: nat)
    requires Run(env, key, ops, states) && i < |states|
    ensures Consistent(env, key, states[i], {})
    ensures (forall j :: 0 <= j < |ops| ==> Timely(ops[j])) ==> TimesOk(states[i].info)
  {
    hide Consistent, TimesOk, Step, EmptyTables;
    if i == 0 {
      EmptyConsistent(env, key);
    } else {
      RunConsistent(env, key, ops, states, i - 1);
      StepKeepsConsistency(env, key, states[i - 1], ops[i - 1], states[i]);
      if forall j :: 0 <= j < |ops| ==> Timely(ops[j]) {
        StepKeepsTimes(env, key, states[i - 1], ops[i - 1], states[i]);
      }
    }
  }

  /** After any run of operations with times from the clock, `Check_` returns 0 and the tables are within capacity. */
  lemma RunPassesCheck(env: Env, key: seq<nat>, ops: seq<Op>, states: seq<State>, i: nat)
    requires Run(env, key, ops, states) && i < |states|
    requires forall j :: 0 <= j < |ops| ==> Timely(ops[j])
    ensures Sound(states[i])
    ensures |states[i].info.Keys| <= TRIED_BUCKET_COUNT * TRIED_BUCKET_SIZE + NEW_BUCKET_COUNT * NEW_BUCKET_SIZE
  {
    hide Consistent, TimesOk, Step, EmptyTables, Sound;
    RunConsistent(env, key, ops, states, i);
    ConsistentPassesCheck(env, key, states[i]);
    Capacity(env, key, states[i]);
  }

  /** Every operation of the manager object is one of the steps above. */
  method Perform(am: AddrMan, op: Op)
    requires am.Valid()
    modifies am
    ensures old(am.Valid()) && am.Valid() && am.nKey == old(am.nKey)
    ensures Step(am.env, am.nKey, old(am.Tables()), op, am.Tables())
  {
    hide Consistent, Added, MarkedGood;
    match op
    case OpAdd(addr, source, penalty, now) =>
      var fNew := am.Add(addr, source, penalty, now);
    case OpGood(service, time) => am.Good(service, time);
    case OpAttempt(service, time) => am.Attempt(service, time);
    case OpConnected(service, time) => am.Connected(service, time);
    case OpGetAddr =>
      var vAddr := am.GetAddr();
      Indexed(am.env, am.nKey, am.Tables());
  }
}
