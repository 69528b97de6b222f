/** `SelectTried` (src/addrman.cpp) as a function of the bucket and of its random draws: which entries it inspects,
    which one it evicts, and when the two agree. */
module AddrSelect {
  import opened AddrTypes
  import opened AddrState

  // ---------------------------------------------------------------- the shuffle

  /** How many entries of a bucket of `size` are inspected. */
  function Inspected(size: nat): (n: nat)
    ensures n <= size && n <= TRIED_ENTRIES_INSPECT_ON_EVICT
  {
    if size < TRIED_ENTRIES_INSPECT_ON_EVICT then size else TRIED_ENTRIES_INSPECT_ON_EVICT
  }

  /** One draw per round so far, round `i` choosing among the positions from `i` on. */
  predicate Draws(size: nat, draws: seq<nat>)
  {
    |draws| <= Inspected(size) && forall i :: 0 <= i < |draws| ==> draws[i] < size - i
  }

  /** The index in the original bucket of what stands at position `k` after the rounds of `draws`. */
  function Origin(draws: seq<nat>, k: nat): (o: nat)
  {
    if draws == [] then k else
      var i := |draws| - 1;
      var j := i + draws[i];
      Origin(draws[..i], if k == i then j else if k == j then i else k)
  }

  lemma {:induction false} OriginInRange(size: nat, draws: seq<nat>, k: nat)
    requires Draws(size, draws) && k < size
    ensures Origin(draws, k) < size
  {
    if draws != [] {
      var i := |draws| - 1;
      var j := i + draws[i];
      OriginInRange(size, draws[..i], if k == i then j else if k == j then i else k);
    }
  }

  lemma {:induction false} OriginInjective(draws: seq<nat>, a: nat, b: nat)
    requires Origin(draws, a) == Origin(draws, b)
    ensures a == b
  {
    if draws != [] {
      var i := |draws| - 1;
      var j := i + draws[i];
      OriginInjective(draws[..i], if a == i then j else if a == j then i else a,
                      if b == i then j else if b == j then i else b);
    }
  }

  /** Later rounds leave the positions of earlier ones alone. */
  lemma {:induction false} OriginSettled(draws: seq<nat>, n: nat, k: nat)
    requires k < n <= |draws|
    ensures Origin(draws, k) == Origin(draws[..n], k)
  {
    if n < |draws| {
      var i := |draws| - 1;
      OriginSettled(draws[..i], n, k);
      assert draws[..i][..n] == draws[..n];
    } else {
      assert draws[..n] == draws;
    }
  }

  // ---------------------------------------------------------------- the choice

  /** The original index of the entry inspected in round `i`. */
  function Seen(draws: seq<nat>, i: nat): (o: nat)
    requires i < |draws|
  {
    Origin(draws[..i + 1], i)
  }

  /** The last success of the entry inspected in round `i`. */
  function SuccessOf(info: Table, bucket: seq<int>, draws: seq<nat>, i: nat): (t: int)
    requires i < |draws|
  {
    var o := Seen(draws, i);
    if o < |bucket| && bucket[o] in info then info[bucket[o]].lastSuccess else 0
  }

  /** The first round that inspects a least recently successful entry. */
  function Winner(info: Table, bucket: seq<int>, draws: seq<nat>): (w: nat)
    requires draws != []
    ensures w < |draws|
    ensures forall i :: 0 <= i < |draws| ==> SuccessOf(info, bucket, draws, w) <= SuccessOf(info, bucket, draws, i)
    ensures forall i :: 0 <= i < w ==> SuccessOf(info, bucket, draws, w) < SuccessOf(info, bucket, draws, i)
  {
    BestRound(info, bucket, draws, |draws|)
  }

  function BestRound(info: Table, bucket: seq<int>, draws: seq<nat>, n: nat): (w: nat)
    requires 0 < n <= |draws|
    ensures w < n
    ensures forall i :: 0 <= i < n ==> SuccessOf(info, bucket, draws, w) <= SuccessOf(info, bucket, draws, i)
    ensures forall i :: 0 <= i < w ==> SuccessOf(info, bucket, draws, w) < SuccessOf(info, bucket, draws, i)
  {
    if n == 1 then 0 else
      var w := BestRound(info, bucket, draws, n - 1);
      if SuccessOf(info, bucket, draws, n - 1) < SuccessOf(info, bucket, draws, w) then n - 1 else w
  }

  /** The returned position: where the entry of the winning round was swapped from. */
  function EvictAt(info: Table, bucket: seq<int>, draws: seq<nat>): (pos: nat)
    requires draws != []
  {
    var w := Winner(info, bucket, draws);
    w + draws[w]
  }

  /** `q` is the bucket after the shuffle and `pos` the position returned. */
  ghost predicate SelectedBy(info: Table, bucket: seq<int>, draws: seq<nat>, q: seq<int>, pos: int)
  {
    && Draws(|bucket|, draws) && |draws| == Inspected(|bucket|)
    && Shuffled(bucket, draws, q)
    && pos == if draws == [] then -1 else EvictAt(info, bucket, draws)
  }

  ghost predicate Shuffled(bucket: seq<int>, draws: seq<nat>, q: seq<int>)
  {
    |q| == |bucket| && forall k :: 0 <= k < |q| ==> Origin(draws, k) < |bucket| && q[k] == bucket[Origin(draws, k)]
  }

  // ---------------------------------------------------------------- one round

  function Exchange(q: seq<int>, i: int, j: int): (r: seq<int>)
    requires 0 <= i < |q| && 0 <= j < |q|
    ensures |r| == |q| && multiset(r) == multiset(q)
    ensures r[i] == q[j] && r[j] == q[i]
    ensures forall m :: 0 <= m < |q| && m != i && m != j ==> r[m] == q[m]
  {
    q[j := q[i]][i := q[j]]
  }

  lemma ShuffleNext(bucket: seq<int>, draws: seq<nat>, q: seq<int>, d: nat)
    requires Shuffled(bucket, draws, q) && |draws| + d < |q|
    ensures Shuffled(bucket, draws + [d], Exchange(q, |draws|, |draws| + d))
  {
    var i, j := |draws|, |draws| + d;
    var r := Exchange(q, i, j);
    forall k | 0 <= k < |r|
      ensures Origin(draws + [d], k) < |bucket| && r[k] == bucket[Origin(draws + [d], k)]
    {
      OriginNext(draws, d, k);
    }
  }

  lemma OriginNext(draws: seq<nat>, d: nat, k: nat)
    ensures var i, j := |draws|, |draws| + d;
      Origin(draws + [d], k) == Origin(draws, if k == i then j else if k == j then i else k)
  {
    assert (draws + [d])[..|draws|] == draws;
  }

  /** The entry inspected in the next round, and those inspected before, unchanged. */
  lemma SuccessNext(info: Table, bucket: seq<int>, draws: seq<nat>, q: seq<int>, d: nat)
    requires Shuffled(bucket, draws, q) && |draws| + d < |q| && q[|draws| + d] in info
    ensures SuccessOf(info, bucket, draws + [d], |draws|) == info[q[|draws| + d]].lastSuccess
    ensures forall i :: 0 <= i < |draws| ==>
      SuccessOf(info, bucket, draws + [d], i) == SuccessOf(info, bucket, draws, i)
  {
    hide Origin;
    var more := draws + [d];
    assert more[..|draws| + 1] == more;
    OriginNext(draws, d, |draws|);
    forall i | 0 <= i < |draws|
      ensures SuccessOf(info, bucket, more, i) == SuccessOf(info, bucket, draws, i)
    {
      assert more[..i + 1] == draws[..i + 1];
    }
  }

  /** What the loop holds: the entry of the best round so far, and where it was swapped from. */
  ghost predicate Chosen(info: Table, bucket: seq<int>, draws: seq<nat>, oldest: int, pos: int)
  {
    if draws == [] then oldest == -1 && pos == -1
    else
      && oldest >= 0 && oldest in info && pos == EvictAt(info, bucket, draws)
      && info[oldest].lastSuccess == SuccessOf(info, bucket, draws, Winner(info, bucket, draws))
  }

  lemma ChosenNext(info: Table, bucket: seq<int>, draws: seq<nat>, q: seq<int>, d: nat, oldest: int, pos: int)
    requires Shuffled(bucket, draws, q) && |draws| + d < |q| && Chosen(info, bucket, draws, oldest, pos)
    requires 0 <= q[|draws| + d] && q[|draws| + d] in info
    ensures var temp := q[|draws| + d];
      if oldest == -1 || info[temp].lastSuccess < info[oldest].lastSuccess
      then Chosen(info, bucket, draws + [d], temp, |draws| + d)
      else Chosen(info, bucket, draws + [d], oldest, pos)
  {
    hide SuccessOf, Shuffled;
    SuccessNext(info, bucket, draws, q, d);
    if draws != [] {
      BestRoundSame(info, info, bucket, draws, draws + [d], |draws|);
    }
  }

  /** Where the loop is after the rounds of `draws`. */
  ghost predicate Selecting(info: Table, bucket: seq<int>, draws: seq<nat>, q: seq<int>, oldest: int, pos: int)
  {
    && Draws(|bucket|, draws) && Shuffled(bucket, draws, q) && Chosen(info, bucket, draws, oldest, pos)
    && multiset(q) == multiset(bucket)
    && (forall k :: 0 <= k < |q| ==> 0 <= q[k] && q[k] in info)
    && (oldest != -1 ==> oldest in info)
  }

  lemma SelectingStart(info: Table, bucket: seq<int>)
    requires forall k :: 0 <= k < |bucket| ==> 0 <= bucket[k] && bucket[k] in info
    ensures Selecting(info, bucket, [], bucket, -1, -1)
  {
  }

  lemma SelectingNext(info: Table, bucket: seq<int>, draws: seq<nat>, q: seq<int>, oldest: int, pos: int, d: nat)
    requires Selecting(info, bucket, draws, q, oldest, pos)
    requires |draws| < TRIED_ENTRIES_INSPECT_ON_EVICT && |draws| + d < |q| == |bucket|
    ensures q[|draws| + d] in info && (oldest != -1 ==> oldest in info)
    ensures var temp, r := q[|draws| + d], Exchange(q, |draws|, |draws| + d);
      if oldest == -1 || info[temp].lastSuccess < info[oldest].lastSuccess
      then Selecting(info, bucket, draws + [d], r, temp, |draws| + d)
      else Selecting(info, bucket, draws + [d], r, oldest, pos)
  {
    hide Shuffled, Chosen, Exchange;
    ShuffleNext(bucket, draws, q, d);
    ChosenNext(info, bucket, draws, q, d, oldest, pos);
  }

  lemma SelectingEnd(info: Table, bucket: seq<int>, draws: seq<nat>, q: seq<int>, oldest: int, pos: int)
    requires Selecting(info, bucket, draws, q, oldest, pos) && |draws| == Inspected(|bucket|)
    ensures multiset(q) == multiset(bucket) && SelectedBy(info, bucket, draws, q, pos)
  {
    hide Shuffled, Draws;
  }

  lemma SelectedInRange(info: Table, bucket: seq<int>, draws: seq<nat>, q: seq<int>, pos: int)
    requires SelectedBy(info, bucket, draws, q, pos) && bucket != []
    ensures 0 <= pos < |q|
  {
  }

  lemma {:induction false} BestRoundSame(info: Table, info': Table, bucket: seq<int>, draws: seq<nat>,
      draws': seq<nat>, n: nat)
    requires 0 < n <= |draws| && n <= |draws'|
    requires forall i :: 0 <= i < n ==> SuccessOf(info, bucket, draws, i) == SuccessOf(info', bucket, draws', i)
    ensures BestRound(info, bucket, draws, n) == BestRound(info', bucket, draws', n)
  {
    hide SuccessOf;
    if n > 1 {
      BestRoundSame(info, info', bucket, draws, draws', n - 1);
    }
  }

  /** Only the success times of the bucket's members matter. */
  lemma SameSelection(info: Table, info': Table, bucket: seq<int>, draws: seq<nat>, q: seq<int>, pos: int)
    requires SelectedBy(info, bucket, draws, q, pos)
    requires forall k :: 0 <= k < |bucket| ==>
      bucket[k] in info && bucket[k] in info' && info[bucket[k]].lastSuccess == info'[bucket[k]].lastSuccess
    ensures SelectedBy(info', bucket, draws, q, pos)
  {
    hide Origin, Shuffled;
    if draws != [] {
      BestRoundSame(info, info', bucket, draws, draws, |draws|);
    }
  }

  // ---------------------------------------------------------------- what is evicted

  /** `id` is inspected, and no inspected entry succeeded longer ago. */
  ghost predicate OldestInspected(info: Table, bucket: seq<int>, draws: seq<nat>, id: int)
  {
    && id in info
    && (exists i :: 0 <= i < |draws| && Inspects(bucket, draws, i, id))
    && forall i :: 0 <= i < |draws| ==> info[id].lastSuccess <= SuccessOf(info, bucket, draws, i)
  }

  predicate Inspects(bucket: seq<int>, draws: seq<nat>, i: nat, id: int)
    requires i < |draws|
  {
    Seen(draws, i) < |bucket| && bucket[Seen(draws, i)] == id
  }

  /** The entry evicted is an oldest inspected one exactly if the draw of the winning round was 0, so that nothing
      was swapped away, or the round whose position was drawn later inspects an equally old entry. */
  lemma EvictsOldestIff(info: Table, bucket: seq<int>, draws: seq<nat>, q: seq<int>, pos: int)
    requires bucket != [] && Distinct(bucket) && (forall k :: 0 <= k < |bucket| ==> bucket[k] in info)
    requires SelectedBy(info, bucket, draws, q, pos)
    ensures 0 <= pos < |q|
    ensures var w := Winner(info, bucket, draws);
      OldestInspected(info, bucket, draws, q[pos]) <==>
        || draws[w] == 0
        || (w + draws[w] < |draws| && SuccessOf(info, bucket, draws, w + draws[w]) == SuccessOf(info, bucket, draws, w))
  {
    hide Origin;
    var w := Winner(info, bucket, draws);
    assert pos == w + draws[w];
    var o := Origin(draws, pos);
    if pos < |draws| {
      OriginSettled(draws, pos + 1, pos);
      assert Inspects(bucket, draws, pos, q[pos]);
      assert SuccessOf(info, bucket, draws, pos) == info[q[pos]].lastSuccess;
    } else {
      forall i | 0 <= i < |draws|
        ensures !Inspects(bucket, draws, i, q[pos])
      {
        OriginSettled(draws, i + 1, i);
        if Origin(draws, i) == o {
          OriginInjective(draws, i, pos);
        }
      }
    }
  }

  /** When no two entries of the bucket succeeded at the same time, the draw of the winning round decides alone. */
  lemma EvictsOldestIffIdle(info: Table, bucket: seq<int>, draws: seq<nat>, q: seq<int>, pos: int)
    requires bucket != [] && Distinct(bucket) && (forall k :: 0 <= k < |bucket| ==> bucket[k] in info)
    requires forall i, k :: 0 <= i < k < |bucket| ==> info[bucket[i]].lastSuccess != info[bucket[k]].lastSuccess
    requires SelectedBy(info, bucket, draws, q, pos)
    ensures 0 <= pos < |q|
    ensures OldestInspected(info, bucket, draws, q[pos]) <==> draws[Winner(info, bucket, draws)] == 0
  {
    hide Origin, OldestInspected;
    EvictsOldestIff(info, bucket, draws, q, pos);
    var w := Winner(info, bucket, draws);
    if draws[w] != 0 && pos < |draws| {
      OriginSettled(draws, pos + 1, pos);
      OriginSettled(draws, w + 1, w);
      OriginInRange(|bucket|, draws, pos);
      OriginInRange(|bucket|, draws, w);
      if Origin(draws, pos) == Origin(draws, w) {
        OriginInjective(draws, pos, w);
      }
    }
  }

  /** After a first draw and only zeros, two entries have changed places. */
  lemma {:induction false} OriginIdle(draws: seq<nat>, k: nat)
    requires draws != [] && forall i :: 1 <= i < |draws| ==> draws[i] == 0
    ensures Origin(draws, k) == if k == 0 then draws[0] else if k == draws[0] then 0 else k
  {
    var i := |draws| - 1;
    if i > 0 {
      OriginIdle(draws[..i], k);
    } else {
      assert draws[..0] == [];
    }
  }

  /** When the first draw finds the least recently successful entry of a large bucket and the others draw 0, that
      entry is inspected and the first one, which is not, is evicted. */
  lemma EvictsUninspected(info: Table, bucket: seq<int>, m: nat, draws: seq<nat>, q: seq<int>, pos: int)
    requires Distinct(bucket) && (forall k :: 0 <= k < |bucket| ==> bucket[k] in info)
    requires TRIED_ENTRIES_INSPECT_ON_EVICT <= m < |bucket|
    requires forall k :: 0 <= k < |bucket| && k != m ==> info[bucket[m]].lastSuccess < info[bucket[k]].lastSuccess
    requires draws == [m, 0, 0, 0] && SelectedBy(info, bucket, draws, q, pos)
    ensures pos == m && q[pos] == bucket[0] && Inspects(bucket, draws, 0, bucket[m])
    ensures !OldestInspected(info, bucket, draws, q[pos])
  {
    hide Origin, Winner, OldestInspected;
    forall i: nat | i < 4
      ensures Seen(draws, i) == if i == 0 then m else i
    {
      OriginIdle(draws[..i + 1], i);
    }
    var w := Winner(info, bucket, draws);
    assert SuccessOf(info, bucket, draws, 0) == info[bucket[m]].lastSuccess;
    assert SuccessOf(info, bucket, draws, w) <= SuccessOf(info, bucket, draws, 0);
    OriginIdle(draws, m);
    EvictsOldestIff(info, bucket, draws, q, pos);
  }

  /** A full bucket with the ids 0 to 63, of which id 0 succeeded most recently and id 63 least. */
  function FullBucket(): (bucket: seq<int>)
    ensures |bucket| == TRIED_BUCKET_SIZE && forall i :: 0 <= i < TRIED_BUCKET_SIZE ==> bucket[i] == i
  {
    seq(TRIED_BUCKET_SIZE, i => i)
  }

  function Successes(x: Info): (info: Table)
  {
    map id | id in FullBucket() :: x.(lastSuccess := 1000 - id)
  }

  /** There the code can evict the most recently successful entry of the whole bucket. */
  lemma NewestEvicted(x: Info)
    ensures exists draws, q, pos :: NewestGoes(x, draws, q, pos)
  {
    hide Origin, Winner, OldestInspected;
    var draws: seq<nat> := [63, 0, 0, 0];
    var info, bucket := Successes(x), FullBucket();
    forall k | 0 <= k < |bucket|
      ensures bucket[k] in info && info[bucket[k]].lastSuccess == 1000 - k
    {
      var id := bucket[k];
      assert id in bucket;
    }
    var q := bucket[0 := 63][63 := 0];
    forall k: nat | k < |q|
      ensures Origin(draws, k) < |bucket| && q[k] == bucket[Origin(draws, k)]
    {
      OriginIdle(draws, k);
    }
    var pos := EvictAt(info, bucket, draws);
    assert SelectedBy(info, bucket, draws, q, pos);
    EvictsUninspected(info, bucket, 63, draws, q, pos);
    assert NewestGoes(x, draws, q, pos);
  }

  ghost predicate NewestGoes(x: Info, draws: seq<nat>, q: seq<int>, pos: int)
  {
    var info, bucket := Successes(x), FullBucket();
    && SelectedBy(info, bucket, draws, q, pos)
    && 0 <= pos < |q| && q[pos] in info && !OldestInspected(info, bucket, draws, q[pos])
    && forall k :: 0 <= k < |bucket| && bucket[k] != q[pos] ==>
         bucket[k] in info && info[bucket[k]].lastSuccess < info[q[pos]].lastSuccess
  }
}
