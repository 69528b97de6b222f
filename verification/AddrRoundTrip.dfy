/** What was written is what is read: no tried entry is lost, every stored field and every bucket comes
    back up to the renumbering of ids, and the tables read are consistent. */
module AddrRoundTrip {
  import opened AddrTypes
  import opened AddrState
  import opened AddrDisk
  import AddrCheck
  import Ascending

  /** The old ids in the order in which they are renumbered. */
  ghost function Ids(info: Table): (q: seq<int>)
  {
    Order(info, false) + Order(info, true)
  }

  ghost function NewCount(info: Table): (a: nat)
  {
    |Order(info, false)|
  }

  /** `q` lists the entries of `info`, each once, the first `a` new and the others tried. */
  ghost predicate Lists(info: Table, q: seq<int>, a: nat)
  {
    && a <= |q|
    && Distinct(q)
    && (forall i :: 0 <= i < |q| ==> q[i] in info && (info[q[i]].inTried <==> i >= a))
    && (forall id :: id in info ==> id in q)
  }

  lemma IdsList(info: Table)
    ensures Lists(info, Ids(info), NewCount(info))
  {
    hide Order;
    OrderMembers(info, false);
    OrderMembers(info, true);
    var p, t := Order(info, false), Order(info, true);
    var q := Ids(info);
    forall i | 0 <= i < |q| ensures q[i] in info && (info[q[i]].inTried <==> i >= |p|) {
      if i < |p| { assert q[i] == p[i] && p[i] in p; } else { assert q[i] == t[i - |p|] && t[i - |p|] in t; }
    }
    forall id | id in info ensures id in q {
      if info[id].inTried { assert id in t; } else { assert id in p; }
    }
  }

  /** `t` holds the first `n` renumbered entries, none of them in a new bucket yet. */
  ghost predicate Reloaded(env: Env, key: seq<nat>, info: Table, q: seq<int>, n: nat, t: State)
    requires n <= |q| && forall i :: 0 <= i < |q| ==> q[i] in info
  {
    && ReloadedInfo(info, q, n, t.info)
    && AddrIndexed(t.info, t.addr)
    && |t.random| == n && (forall i :: 0 <= i < n ==> t.random[i] == i)
    && |t.tried| == TRIED_BUCKET_COUNT
    && (forall k :: 0 <= k < |t.tried| ==> TriedBucketOk(env, key, t.info, t.tried[k], k))
    && (forall i :: 0 <= i < n && info[q[i]].inTried ==> i in t.tried[TriedBucket(env, key, info[q[i]].service)])
    && t.news == seq(NEW_BUCKET_COUNT, _ => {})
  }

  ghost predicate ReloadedInfo(info: Table, q: seq<int>, n: nat, info': Table)
    requires n <= |q| && forall i :: 0 <= i < |q| ==> q[i] in info
  {
    && (forall i :: i in info' <==> 0 <= i < n)
    && (forall i :: 0 <= i < n ==>
          info'[i] == Restore(Save(info[q[i]])).(randomPos := i, inTried := info[q[i]].inTried))
  }

  /** No two of the listed entries share a network address. */
  lemma DistinctNets(info: Table, addr: map<NetAddr, int>, q: seq<int>, a: nat, i: int, j: int)
    requires AddrIndexed(info, addr) && Lists(info, q, a) && 0 <= i < j < |q|
    ensures info[q[i]].service.net != info[q[j]].service.net
  {
  }

  lemma EnterReloaded(info: Table, addr: map<NetAddr, int>, q: seq<int>, a: nat, n: nat, t: State)
    requires AddrIndexed(info, addr) && Lists(info, q, a) && n < |q|
    requires ReloadedInfo(info, q, n, t.info) && AddrIndexed(t.info, t.addr) && |t.random| == n
    ensures var x := Restore(Save(info[q[n]])).(inTried := info[q[n]].inTried);
            var r := Enter(t, n, x);
      ReloadedInfo(info, q, n + 1, r.info) && AddrIndexed(r.info, r.addr)
  {
    var x := Restore(Save(info[q[n]])).(inTried := info[q[n]].inTried);
    var r := Enter(t, n, x);
    forall b | b in t.addr ensures b != x.service.net {
      DistinctNets(info, addr, q, a, t.addr[b], n);
    }
    EnteredIndex(t.info, t.addr, n, r.info[n]);
  }

  lemma EnteredIndex(info: Table, addr: map<NetAddr, int>, n: int, x: Info)
    requires AddrIndexed(info, addr) && n !in info && x.service.net !in addr
    ensures AddrIndexed(info[n := x], addr[x.service.net := n])
  {
  }

  /** The file written for the tables `s`. */
  ghost predicate Saved(info: Table, q: seq<int>, a: nat, f: File)
  {
    && Lists(info, q, a)
    && |f.newEntries| == a && |f.triedEntries| == |q| - a && f.nUBuckets == NEW_BUCKET_COUNT
    && (forall i :: 0 <= i < a ==> f.newEntries[i] == Save(info[q[i]]))
    && (forall i :: 0 <= i < |q| - a ==> f.triedEntries[i] == Save(info[q[a + i]]))
  }

  lemma BlankReloaded(env: Env, key: seq<nat>, info: Table, q: seq<int>, f: File)
    requires forall i :: 0 <= i < |q| ==> q[i] in info
    ensures Reloaded(env, key, info, q, 0, Blank(f))
  {
    var t := Blank(f);
    assert forall k :: 0 <= k < |t.tried| ==> TriedBucketOk(env, key, t.info, t.tried[k], k);
  }

  lemma NewStep(env: Env, key: seq<nat>, s: State, q: seq<int>, a: nat, n: nat, t: State)
    requires AddrIndexed(s.info, s.addr) && Lists(s.info, q, a) && n < a
    requires Reloaded(env, key, s.info, q, n, t)
    ensures Reloaded(env, key, s.info, q, n + 1, Enter(t, n, Restore(Save(s.info[q[n]]))))
  {
    hide AddrIndexed, TriedBucketOk;
    var x := Restore(Save(s.info[q[n]]));
    var r := Enter(t, n, x);
    assert x == x.(inTried := s.info[q[n]].inTried);
    EnterReloaded(s.info, s.addr, q, a, n, t);
    KeptBuckets(env, key, t.info, r.info, t.tried);
  }

  lemma {:induction false} NewPhase(env: Env, key: seq<nat>, s: State, q: seq<int>, f: File, n: nat)
    requires AddrIndexed(s.info, s.addr) && Saved(s.info, q, |f.newEntries|, f) && n <= |f.newEntries|
    ensures Reloaded(env, key, s.info, q, n, WithNew(env, f, n))
    ensures WithNew(env, f, n).nNew == f.nNew && WithNew(env, f, n).nTried == f.nTried
  {
    hide AddrIndexed, Reloaded, Restore;
    if n == 0 {
      BlankReloaded(env, key, s.info, q, f);
    } else {
      NewPhase(env, key, s, q, f, n - 1);
      NewStep(env, key, s, q, |f.newEntries|, n - 1, WithNew(env, f, n - 1));
    }
  }

  /** The renumbered members of a tried bucket, as old ids. */
  ghost function Renamed(q: seq<int>, p: seq<int>): (r: seq<int>)
    requires forall i :: 0 <= i < |p| ==> 0 <= p[i] < |q|
    ensures |r| == |p| && forall i :: 0 <= i < |p| ==> r[i] == q[p[i]]
  {
    seq(|p|, i requires 0 <= i < |p| => q[p[i]])
  }

  /** A bucket being refilled still has room for each entry the old bucket held. */
  lemma StillRoom(env: Env, key: seq<nat>, s: State, q: seq<int>, a: nat, n: nat, t: State, k: int)
    requires TriedOk(env, key, s.info, s.tried) && Lists(s.info, q, a) && a <= n < |q|
    requires Reloaded(env, key, s.info, q, n, t) && k == TriedBucket(env, key, s.info[q[n]].service)
    ensures |t.tried[k]| < TRIED_BUCKET_SIZE
  {
    hide AddrIndexed;
    var p := t.tried[k];
    assert TriedBucketOk(env, key, t.info, p, k);
    forall i | 0 <= i < |p|
      ensures 0 <= p[i] < n && s.info[q[p[i]]].inTried && TriedBucket(env, key, s.info[q[p[i]]].service) == k
    {
      var j := p[i];
      assert j in p;
    }
    var r := Renamed(q, p) + [q[n]];
    assert Distinct(r);
    assert TriedBucketOk(env, key, s.info, s.tried[k], k);
    forall i | 0 <= i < |r| ensures r[i] in s.tried[k] {
      var id := r[i];
      assert id in s.info && s.info[id].inTried && TriedBucket(env, key, s.info[id].service) == k;
    }
    SmallerDistinct(r, s.tried[k]);
  }

  lemma {:induction false} SmallerDistinct(r: seq<int>, p: seq<int>)
    requires Distinct(r) && Distinct(p) && forall i :: 0 <= i < |r| ==> r[i] in p
    ensures |r| <= |p|
  {
    if r != [] {
      var last := |r| - 1;
      var k :| 0 <= k < |p| && p[k] == r[last];
      var rest := p[..k] + p[k + 1..];
      forall i | 0 <= i < last ensures r[i] in rest {
        var j :| 0 <= j < |p| && p[j] == r[i];
        assert j != k;
        assert j < k ==> rest[j] == r[i];
        assert j > k ==> rest[j - 1] == r[i];
      }
      SmallerDistinct(r[..last], rest);
    }
  }

  lemma TriedStep(env: Env, key: seq<nat>, s: State, q: seq<int>, a: nat, n: nat, t: State)
    requires AddrIndexed(s.info, s.addr) && TriedOk(env, key, s.info, s.tried) && Lists(s.info, q, a) && a <= n < |q|
    requires Reloaded(env, key, s.info, q, n, t) && t.idCount == n
    ensures var x := Restore(Save(s.info[q[n]]));
            var k := TriedBucket(env, key, x.service);
      |t.tried[k]| < TRIED_BUCKET_SIZE && Reloaded(env, key, s.info, q, n + 1, EnterTried(t, k, x))
  {
    hide AddrIndexed;
    var x := Restore(Save(s.info[q[n]]));
    var k := TriedBucket(env, key, x.service);
    StillRoom(env, key, s, q, a, n, t, k);
    EnterReloaded(s.info, s.addr, q, a, n, t);
    var u := Enter(t, n, x.(inTried := true));
    KeptBuckets(env, key, t.info, u.info, t.tried);
    GrownBucket(env, key, u.info, t.tried[k], k, n);
  }

  lemma GrownBucket(env: Env, key: seq<nat>, info: Table, p: seq<int>, k: int, n: int)
    requires TriedBucketOk(env, key, info, p, k) && |p| < TRIED_BUCKET_SIZE && n !in p
    requires n in info && info[n].inTried && TriedBucket(env, key, info[n].service) == k
    ensures TriedBucketOk(env, key, info, p + [n], k)
  {
  }

  lemma ReloadedIgnoresCount(env: Env, key: seq<nat>, info: Table, q: seq<int>, n: nat, t: State, c: int)
    requires n <= |q| && (forall i :: 0 <= i < |q| ==> q[i] in info) && Reloaded(env, key, info, q, n, t)
    ensures Reloaded(env, key, info, q, n, t.(idCount := c))
  {
  }

  /** The first `n` tried entries are back: none lost, all counters as in the file. */
  ghost predicate TriedBack(env: Env, key: seq<nat>, s: State, q: seq<int>, f: File, n: nat)
    requires Saved(s.info, q, |f.newEntries|, f) && n <= |f.triedEntries|
  {
    var (t, lost) := WithTried(env, f, n);
    && lost == 0 && t.idCount == |f.newEntries| + n && t.nNew == f.nNew && t.nTried == f.nTried
    && Reloaded(env, key, s.info, q, |f.newEntries| + n, t)
  }

  lemma TriedStart(env: Env, key: seq<nat>, s: State, q: seq<int>, f: File)
    requires AddrIndexed(s.info, s.addr) && Saved(s.info, q, |f.newEntries|, f)
    ensures TriedBack(env, key, s, q, f, 0)
  {
    hide AddrIndexed, Reloaded, WithNew;
    var a := |f.newEntries|;
    assert WithTried(env, f, 0) == (WithNew(env, f, a).(idCount := a), 0);
    NewPhase(env, key, s, q, f, a);
    ReloadedIgnoresCount(env, key, s.info, q, a, WithNew(env, f, a), a);
  }

  lemma TriedNext(env: Env, key: seq<nat>, s: State, q: seq<int>, f: File, n: nat)
    requires AddrIndexed(s.info, s.addr) && TriedOk(env, key, s.info, s.tried)
    requires Saved(s.info, q, |f.newEntries|, f) && n < |f.triedEntries| && f.key == key
    requires TriedBack(env, key, s, q, f, n)
    ensures TriedBack(env, key, s, q, f, n + 1)
  {
    hide AddrIndexed, Restore, TriedOk, Reloaded, WithNew, EnterTried, TriedBucket, WithTried;
    var a := |f.newEntries|;
    TriedStep(env, key, s, q, a, a + n, WithTried(env, f, n).0);
    WithTriedNext(env, f, n);
  }

  lemma {:induction false} TriedPhase(env: Env, key: seq<nat>, s: State, q: seq<int>, f: File, n: nat)
    requires AddrIndexed(s.info, s.addr) && TriedOk(env, key, s.info, s.tried)
    requires Saved(s.info, q, |f.newEntries|, f) && n <= |f.triedEntries| && f.key == key
    ensures TriedBack(env, key, s, q, f, n)
  {
    hide AddrIndexed, TriedOk, Saved, TriedBack;
    if n == 0 {
      TriedStart(env, key, s, q, f);
    } else {
      TriedPhase(env, key, s, q, f, n - 1);
      TriedNext(env, key, s, q, f, n - 1);
    }
  }

  lemma KeptBuckets(env: Env, key: seq<nat>, info: Table, info': Table, tried: seq<seq<int>>)
    requires forall k :: 0 <= k < |tried| ==> TriedBucketOk(env, key, info, tried[k], k)
    requires forall id :: id in info ==>
      id in info' && info'[id].inTried == info[id].inTried && info'[id].service == info[id].service
    ensures forall k :: 0 <= k < |tried| ==> TriedBucketOk(env, key, info', tried[k], k)
  {
  }

  // ---------------------------------------------------------------- the new buckets

  /** The renumbered members of an old new bucket. */
  ghost function Image(q: seq<int>, a: nat, bucket: set<int>): (r: set<int>)
    requires a <= |q|
  {
    set i | 0 <= i < a && q[i] in bucket
  }

  /** `t` is `t0` after the buckets below `b` were refilled and `seen` was put in bucket `b`. */
  ghost predicate Refilled(s: State, q: seq<int>, a: nat, t0: State, t: State, b: nat, seen: set<int>)
    requires a <= |q| && b <= |s.news|
  {
    && t == t0.(info := t.info, news := t.news)
    && RefilledInfo(s.news[..b], q, a, t0.info, t.info, seen)
    && |t.news| == |s.news|
    && forall c :: 0 <= c < |s.news| ==>
         t.news[c] == if c < b then Image(q, a, s.news[c]) else if c == b then seen else {}
  }

  ghost predicate RefilledInfo(news: seq<set<int>>, q: seq<int>, a: nat, info0: Table, info: Table, seen: set<int>)
    requires a <= |q|
  {
    && (forall i :: i in info <==> i in info0)
    && (forall i :: i in info ==>
          info[i] == info0[i].(
            refCount := if 0 <= i < a then Holding(news, q[i]) + (if i in seen then 1 else 0) else 0))
  }

  /** Before its last bucket an entry has fewer references than it had. */
  lemma StillBelow(s: State, b: nat, id: int)
    requires NewOk(s.info, s.news, {}) && b < |s.news| && id in s.news[b]
    ensures Holding(s.news[..b], id) < NEW_BUCKETS_PER_ADDRESS
  {
    assert s.news[..b + 1][..b] == s.news[..b];
    AddrCheck.HoldingPrefix(s.news, b + 1, id);
  }

  lemma IndexStep(s: State, q: seq<int>, a: nat, t0: State, t: State, b: nat, seen: set<int>, i: int)
    requires NewOk(s.info, s.news, {}) && a <= |q| && b < |s.news|
    requires (forall j :: j in t0.info <==> 0 <= j < |q|) && Refilled(s, q, a, t0, t, b, seen)
    requires i in Image(q, a, s.news[b]) && i !in seen
    ensures Refilled(s, q, a, t0, WithIndex(t, b, i), b, seen + {i})
  {
    hide NewOk, Holding;
    StillBelow(s, b, q[i]);
    assert i in t.info && t.info[i].refCount < NEW_BUCKETS_PER_ADDRESS;
    IndexInfo(s.news[..b], q, a, t0.info, t.info, seen, i);
  }

  lemma IndexInfo(news: seq<set<int>>, q: seq<int>, a: nat, info0: Table, info: Table, seen: set<int>, i: int)
    requires a <= |q| && RefilledInfo(news, q, a, info0, info, seen) && 0 <= i < a && i in info && i !in seen
    ensures RefilledInfo(news, q, a, info0, info[i := info[i].(refCount := info[i].refCount + 1)], seen + {i})
  {
    hide Holding;
  }

  lemma BucketDone(s: State, q: seq<int>, a: nat, t0: State, t: State, b: nat)
    requires a <= |q| && b < |s.news| && Refilled(s, q, a, t0, t, b, Image(q, a, s.news[b]))
    ensures Refilled(s, q, a, t0, t, b + 1, {})
  {
    assert s.news[..b + 1][..b] == s.news[..b];
  }

  /** The written indexes of a bucket are the renumbered members, each once. */
  lemma PositionsPoint(info: Table, q: seq<int>, a: nat, bucket: set<int>)
    requires Lists(info, q, a) && forall id :: id in bucket ==> id in info && !info[id].inTried
    ensures var p, m := Positions(q[..a], bucket), Ascending.Sequence(bucket);
      |p| == |m| && forall j :: 0 <= j < |p| ==> 0 <= p[j] < a && q[p[j]] == m[j]
  {
    var p, m := Positions(q[..a], bucket), Ascending.Sequence(bucket);
    Traversed(bucket);
    hide Lists, Ascending.Sequence;
    forall j | 0 <= j < |p| ensures 0 <= p[j] < a && q[p[j]] == m[j] {
      MemberIndex(info, q, a, m[j]);
    }
  }

  lemma PointingInto(q: seq<int>, a: nat, bucket: set<int>, m: seq<int>, p: seq<int>)
    requires a <= |q| && Distinct(q) && (forall id :: id in m <==> id in bucket) && |p| == |m|
    requires forall j :: 0 <= j < |p| ==> 0 <= p[j] < a && q[p[j]] == m[j]
    ensures forall i :: i in p <==> i in Image(q, a, bucket)
  {
    forall i | i in Image(q, a, bucket) ensures i in p {
      var id := q[i];
      assert id in bucket && id in m;
      var j :| 0 <= j < |m| && m[j] == id;
      assert p[j] == i;
    }
    forall i | i in p ensures i in Image(q, a, bucket) {
      var j :| 0 <= j < |p| && p[j] == i;
      assert m[j] in m;
    }
  }

  lemma PositionsAre(info: Table, q: seq<int>, a: nat, bucket: set<int>)
    requires Lists(info, q, a) && forall id :: id in bucket ==> id in info && !info[id].inTried
    ensures var p := Positions(q[..a], bucket); Distinct(p) && Elements(p) == Image(q, a, bucket)
  {
    hide Positions, Image;
    var p, m := Positions(q[..a], bucket), Ascending.Sequence(bucket);
    PositionsPoint(info, q, a, bucket);
    PointingInto(q, a, bucket, m, p);
    forall i, j | 0 <= i < j < |p| ensures p[i] != p[j] {
      assert m[i] < m[j];
    }
    assert forall i :: i in Elements(p) <==> i in Image(q, a, bucket);
    Ascending.SameSet(Elements(p), Image(q, a, bucket));
  }

  lemma MemberIndex(info: Table, q: seq<int>, a: nat, id: int)
    requires Lists(info, q, a) && id in info && !info[id].inTried
    ensures 0 <= IndexIn(q[..a], id) < a && q[IndexIn(q[..a], id)] == id
  {
    var i :| 0 <= i < |q| && q[i] == id;
    assert q[..a][i] == id;
  }

  lemma {:induction false} IndexesPhase(s: State, q: seq<int>, a: nat, t0: State, t: State, b: nat, p: seq<int>)
    requires NewOk(s.info, s.news, {}) && a <= |q| && b < |s.news|
    requires (forall j :: j in t0.info <==> 0 <= j < |q|) && Refilled(s, q, a, t0, t, b, {})
    requires Distinct(p) && Elements(p) <= Image(q, a, s.news[b])
    ensures |t.news| == |s.news| && Refilled(s, q, a, t0, WithIndexes(t, b, p), b, Elements(p))
  {
    hide NewOk, Lists, RefilledInfo, WithIndex;
    if p == [] {
      assert Elements(p) == {};
    } else {
      var last := |p| - 1;
      assert p == p[..last] + [p[last]];
      assert Elements(p) == Elements(p[..last]) + {p[last]};
      IndexesPhase(s, q, a, t0, t, b, p[..last]);
      IndexStep(s, q, a, t0, WithIndexes(t, b, p[..last]), b, Elements(p[..last]), p[last]);
    }
  }

  lemma {:induction false} BucketsPhase(s: State, q: seq<int>, a: nat, t0: State, buckets: seq<seq<int>>, n: nat)
    requires NewOk(s.info, s.news, {}) && a <= |q| && Lists(s.info, q, a) && n <= |s.news| == |buckets| == |t0.news|
    requires forall j :: j in t0.info <==> 0 <= j < |q|
    requires Refilled(s, q, a, t0, t0, 0, {})
    requires forall b :: 0 <= b < |s.news| ==> buckets[b] == Positions(q[..a], s.news[b])
    ensures Refilled(s, q, a, t0, WithBuckets(t0, buckets, n), n, {})
  {
    hide Lists, RefilledInfo, WithIndexes, Positions, Image;
    if n > 0 {
      BucketsPhase(s, q, a, t0, buckets, n - 1);
      PositionsAre(s.info, q, a, s.news[n - 1]);
      var t := WithBuckets(t0, buckets, n - 1);
      IndexesPhase(s, q, a, t0, t, n - 1, buckets[n - 1]);
      BucketDone(s, q, a, t0, WithIndexes(t, n - 1, buckets[n - 1]), n - 1);
    }
  }

  // ---------------------------------------------------------------- the round trip

  /** `t` is `s` with the id `q[i]` renamed to `i`: same stored fields, same buckets, same counters. */
  ghost predicate SameUpToIds(s: State, t: State, q: seq<int>)
  {
    && (forall i :: i in t.info <==> 0 <= i < |q|)
    && (forall i :: 0 <= i < |q| ==>
          && q[i] in s.info && Save(t.info[i]) == Save(s.info[q[i]])
          && t.info[i].inTried == s.info[q[i]].inTried && t.info[i].refCount == s.info[q[i]].refCount)
    && |t.tried| == |s.tried| && |t.news| == |s.news| && t.nTried == s.nTried && t.nNew == s.nNew
    && (forall k, i :: 0 <= k < |s.tried| && 0 <= i < |q| ==> (i in t.tried[k] <==> q[i] in s.tried[k]))
    && (forall b, i :: 0 <= b < |s.news| && 0 <= i < |q| ==> (i in t.news[b] <==> q[i] in s.news[b]))
  }

  /** The state after both phases: `t1` from the entries, `t` from the buckets. */
  ghost predicate Rebuilding(env: Env, key: seq<nat>, s: State, q: seq<int>, a: nat, t1: State, t: State)
  {
    && Lists(s.info, q, a)
    && Reloaded(env, key, s.info, q, |q|, t1)
    && Refilled(s, q, a, t1, t, |s.news|, {})
    && t1.idCount == |q| && t1.nNew == s.nNew && t1.nTried == s.nTried
  }

  lemma RebuiltInfo(env: Env, key: seq<nat>, s: State, q: seq<int>, a: nat, t1: State, t: State, i: int)
    requires Consistent(env, key, s, {}) && Rebuilding(env, key, s, q, a, t1, t)
    requires 0 <= i < |q|
    ensures i in t.info && t.info[i] == s.info[q[i]].(lastTry := 0, randomPos := i)
  {
    hide AddrIndexed, RandomIndexed, TriedBucketOk, Image;
    assert s.news[..|s.news|] == s.news;
    assert q[i] in s.info;
    assert i in t1.info && t1.info[i] == Restore(Save(s.info[q[i]])).(randomPos := i, inTried := s.info[q[i]].inTried);
  }

  lemma RebuiltTables(env: Env, key: seq<nat>, s: State, q: seq<int>, a: nat, t1: State, t: State)
    requires Consistent(env, key, s, {}) && Rebuilding(env, key, s, q, a, t1, t)
    ensures forall i :: i in t.info <==> 0 <= i < |q|
    ensures forall i :: 0 <= i < |q| ==> t.info[i] == s.info[q[i]].(lastTry := 0, randomPos := i)
    ensures t == t1.(info := t.info, news := t.news) && |t.tried| == |s.tried| && |t.news| == |s.news|
    ensures forall b, i :: 0 <= b < |s.news| && 0 <= i < |q| ==> (i in t.news[b] <==> q[i] in s.news[b])
    ensures forall b, i :: 0 <= b < |s.news| && i in t.news[b] ==> 0 <= i < a
  {
    forall i | 0 <= i < |q| ensures t.info[i] == s.info[q[i]].(lastTry := 0, randomPos := i) {
      RebuiltInfo(env, key, s, q, a, t1, t, i);
    }
    hide AddrIndexed, RandomIndexed, TriedBucketOk, Holding, Consistent, TriedOk, Restore, Save;
    RebuiltNews(env, key, s, q, a, t1, t);
  }

  lemma RebuiltNews(env: Env, key: seq<nat>, s: State, q: seq<int>, a: nat, t1: State, t: State)
    requires Consistent(env, key, s, {}) && Rebuilding(env, key, s, q, a, t1, t)
    ensures |t.news| == |s.news| && |t.tried| == |s.tried|
    ensures forall b, i :: 0 <= b < |s.news| && 0 <= i < |q| ==> (i in t.news[b] <==> q[i] in s.news[b])
    ensures forall b, i :: 0 <= b < |s.news| && i in t.news[b] ==> 0 <= i < a
  {
    hide AddrIndexed, RandomIndexed, TriedBucketOk, Holding, RefilledInfo, ReloadedInfo;
    forall b, i | 0 <= b < |s.news| && 0 <= i < |q| ensures i in t.news[b] <==> q[i] in s.news[b] {
      assert t.news[b] == Image(q, a, s.news[b]);
      var id := q[i];
      assert id in s.news[b] ==> !s.info[id].inTried;
    }
  }

  lemma RebuiltTried(env: Env, key: seq<nat>, s: State, q: seq<int>, a: nat, t1: State, t: State)
    requires Consistent(env, key, s, {}) && Rebuilding(env, key, s, q, a, t1, t)
    ensures TriedOk(env, key, t.info, t.tried)
    ensures forall k, i :: 0 <= k < |s.tried| && 0 <= i < |q| ==> (i in t.tried[k] <==> q[i] in s.tried[k])
  {
    hide AddrIndexed, RandomIndexed, Holding, Image;
    RebuiltTables(env, key, s, q, a, t1, t);
    KeptBuckets(env, key, t1.info, t.info, t.tried);
    forall k, i | 0 <= k < |s.tried| && 0 <= i < |q| ensures i in t.tried[k] <==> q[i] in s.tried[k] {
      assert TriedBucketOk(env, key, t.info, t.tried[k], k);
      assert TriedBucketOk(env, key, s.info, s.tried[k], k);
      var id := q[i];
      assert id in s.info && t.info[i].service == s.info[id].service;
    }
  }

  lemma {:induction false} HoldingSame(news: seq<set<int>>, i: int, news': seq<set<int>>, i': int)
    requires |news| == |news'| && forall b :: 0 <= b < |news| ==> (i in news[b] <==> i' in news'[b])
    ensures Holding(news, i) == Holding(news', i')
  {
    if news != [] {
      HoldingSame(news[..|news| - 1], i, news'[..|news| - 1], i');
    }
  }

  lemma RebuiltBuckets(env: Env, key: seq<nat>, s: State, q: seq<int>, a: nat, t1: State, t: State)
    requires Consistent(env, key, s, {}) && Rebuilding(env, key, s, q, a, t1, t)
    ensures forall b :: 0 <= b < |t.news| ==> |t.news[b]| <= NEW_BUCKET_SIZE
  {
    hide IdsBelow, AddrIndexed, RandomIndexed, TriedOk, Counted, Holding, Reloaded, RefilledInfo, Image, Elements,
      Positions;
    forall b | 0 <= b < |t.news| ensures |t.news[b]| <= NEW_BUCKET_SIZE {
      assert t.news[b] == Image(q, a, s.news[b]);
      PositionsAre(s.info, q, a, s.news[b]);
      DistinctSize(Positions(q[..a], s.news[b]), t.news[b]);
    }
  }

  lemma RebuiltNewOk(env: Env, key: seq<nat>, s: State, q: seq<int>, a: nat, t1: State, t: State)
    requires Consistent(env, key, s, {}) && Rebuilding(env, key, s, q, a, t1, t)
    ensures NewOk(t.info, t.news, {})
  {
    hide IdsBelow, AddrIndexed, RandomIndexed, TriedOk, Counted, Holding, Reloaded, Refilled;
    RebuiltTables(env, key, s, q, a, t1, t);
    RebuiltBuckets(env, key, s, q, a, t1, t);
    forall i | i in t.info && !t.info[i].inTried
      ensures 1 <= t.info[i].refCount <= NEW_BUCKETS_PER_ADDRESS && t.info[i].refCount == Holding(t.news, i)
    {
      assert q[i] in s.info && !s.info[q[i]].inTried;
      HoldingSame(t.news, i, s.news, q[i]);
    }
  }

  lemma IdentityLists(info: Table, q: seq<int>, a: nat, info': Table)
    requires Lists(info, q, a)
    requires forall i :: i in info' <==> 0 <= i < |q|
    requires forall i :: 0 <= i < |q| ==> info'[i].inTried == info[q[i]].inTried
    ensures Lists(info', seq(|q|, i => i), a)
  {
    var p := seq(|q|, i => i);
    forall id | id in info' ensures id in p {
      assert p[id] == id;
    }
  }

  lemma RebuiltCounted(env: Env, key: seq<nat>, s: State, q: seq<int>, a: nat, t1: State, t: State)
    requires Consistent(env, key, s, {}) && Rebuilding(env, key, s, q, a, t1, t)
    ensures Counted(t.info, t.nTried, t.nNew)
  {
    hide AddrIndexed, RandomIndexed, TriedOk, NewOk, Reloaded, Refilled, TriedIds, NewIds, Lists;
    RebuiltTables(env, key, s, q, a, t1, t);
    ListCounts(s.info, q, a);
    IdentityLists(s.info, q, a, t.info);
    ListCounts(t.info, seq(|q|, i => i), a);
  }

  lemma ListCounts(info: Table, q: seq<int>, a: nat)
    requires Lists(info, q, a)
    ensures |NewIds(info)| == a && |TriedIds(info)| == |q| - a
  {
    forall id ensures id in q[..a] <==> id in NewIds(info) {
      ListPlace(info, q, a, id);
    }
    DistinctSize(q[..a], NewIds(info));
    forall id ensures id in q[a..] <==> id in TriedIds(info) {
      ListPlace(info, q, a, id);
    }
    DistinctSize(q[a..], TriedIds(info));
  }

  lemma ListPlace(info: Table, q: seq<int>, a: nat, id: int)
    requires Lists(info, q, a)
    ensures id in q[..a] <==> id in info && !info[id].inTried
    ensures id in q[a..] <==> id in info && info[id].inTried
  {
    if id in info {
      assert id in q;
      var i :| 0 <= i < |q| && q[i] == id;
      assert i < a ==> q[..a][i] == id;
      assert i >= a ==> q[a..][i - a] == id;
    }
  }

  lemma RebuiltIndexes(env: Env, key: seq<nat>, s: State, q: seq<int>, a: nat, t1: State, t: State)
    requires Consistent(env, key, s, {}) && Rebuilding(env, key, s, q, a, t1, t)
    ensures AddrIndexed(t.info, t.addr) && RandomIndexed(t.info, t.random)
  {
    hide TriedOk, NewOk, TriedBucketOk, Holding, Image, Counted, RefilledInfo, RandomIndexed, AddrIndexed;
    RebuiltTables(env, key, s, q, a, t1, t);
    forall i ensures i in t1.info.Keys <==> i in t.info.Keys {
      assert i in t1.info <==> 0 <= i < |q|;
    }
    Ascending.SameSet(t1.info.Keys, t.info.Keys);
    AddrFrame(t1.info, t.info, t1.addr);
    IdentityRandom(t.info, t.random);
  }

  lemma IdentityRandom(info: Table, random: seq<int>)
    requires forall i :: i in info <==> 0 <= i < |random|
    requires forall i :: 0 <= i < |random| ==> random[i] == i && info[i].randomPos == i
    ensures RandomIndexed(info, random)
  {
  }

  lemma RebuiltSame(env: Env, key: seq<nat>, s: State, q: seq<int>, a: nat, t1: State, t: State)
    requires Consistent(env, key, s, {}) && Rebuilding(env, key, s, q, a, t1, t)
    ensures Consistent(env, key, t, {}) && SameUpToIds(s, t, q)
  {
    hide AddrIndexed, RandomIndexed, TriedOk, NewOk, Counted, Reloaded, Refilled;
    RebuiltTables(env, key, s, q, a, t1, t);
    RebuiltIndexes(env, key, s, q, a, t1, t);
    RebuiltTried(env, key, s, q, a, t1, t);
    RebuiltNewOk(env, key, s, q, a, t1, t);
    RebuiltCounted(env, key, s, q, a, t1, t);
  }

  lemma SnapshotSaved(env: Env, key: seq<nat>, s: State)
    requires Consistent(env, key, s, {})
    ensures var f := Snapshot(s, key);
      && WellFormed(f) && f.key == key && f.nNew == s.nNew && f.nTried == s.nTried
      && Saved(s.info, Ids(s.info), |f.newEntries|, f)
      && |f.newEntries| == NewCount(s.info) && Ids(s.info)[..NewCount(s.info)] == Order(s.info, false)
      && |s.news| == |f.buckets| && forall b :: 0 <= b < |s.news| ==>
        f.buckets[b] == Positions(Order(s.info, false), s.news[b])
  {
    hide AddrIndexed, RandomIndexed, TriedOk, Order, Positions;
    IdsList(s.info);
    WriteReady(env, key, s);
  }

  lemma StartRefill(env: Env, key: seq<nat>, s: State, q: seq<int>, a: nat, t1: State)
    requires Lists(s.info, q, a) && Reloaded(env, key, s.info, q, |q|, t1) && |s.news| == NEW_BUCKET_COUNT
    ensures Refilled(s, q, a, t1, t1, 0, {})
  {
  }

  /** Reading back what was written loses nothing. */
  lemma RoundTrip(env: Env, key: seq<nat>, s: State)
    requires Consistent(env, key, s, {})
    ensures WellFormed(Snapshot(s, key))
    ensures var (t, lost) := Rebuilt(env, Snapshot(s, key));
      lost == 0 && Consistent(env, key, t, {}) && SameUpToIds(s, t, Ids(s.info)) &&
        Lists(s.info, Ids(s.info), NewCount(s.info))
  {
    hide AddrIndexed, RandomIndexed, TriedOk, NewOk, Counted, Reloaded, Refilled, SameUpToIds, Snapshot, Order, Lists,
      Ids, NewCount, WithBuckets, Positions;
    var f, q, a := Snapshot(s, key), Ids(s.info), NewCount(s.info);
    SnapshotSaved(env, key, s);
    NewSizes(s.info, s.news);
    ListedKnown(s.info, q, a);
    TriedPhase(env, key, s, q, f, |f.triedEntries|);
    var (t1, lost) := WithTried(env, f, f.nTried);
    assert t1.(nTried := t1.nTried - lost) == t1;
    StartRefill(env, key, s, q, a, t1);
    ReloadedKeys(env, key, s.info, q, t1);
    BucketsPhase(s, q, a, t1, f.buckets, NEW_BUCKET_COUNT);
    RebuiltSame(env, key, s, q, a, t1, WithBuckets(t1, f.buckets, NEW_BUCKET_COUNT));
  }

  lemma ListedKnown(info: Table, q: seq<int>, a: nat)
    requires Lists(info, q, a)
    ensures a <= |q| && forall i :: 0 <= i < |q| ==> q[i] in info
  {
  }

  lemma NewSizes(info: Table, news: seq<set<int>>)
    requires NewOk(info, news, {})
    ensures |news| == NEW_BUCKET_COUNT
  {
  }

  lemma ReloadedKeys(env: Env, key: seq<nat>, info: Table, q: seq<int>, t: State)
    requires (forall i :: 0 <= i < |q| ==> q[i] in info) && Reloaded(env, key, info, q, |q|, t)
    ensures forall j :: j in t.info <==> 0 <= j < |q|
    ensures |t.news| == NEW_BUCKET_COUNT
  {
  }

  /** The two methods together. */
  method WriteThenRead(env: Env, key: seq<nat>, s: State) returns (t: State, nLost: int)
    requires Consistent(env, key, s, {})
    ensures nLost == 0 && Consistent(env, key, t, {}) && SameUpToIds(s, t, Ids(s.info))
  {
    hide Consistent, SameUpToIds, Snapshot, Rebuilt, Lists;
    var f := Write(s, key);
    RoundTrip(env, key, s);
    t, nLost := Read(env, f);
  }
}
