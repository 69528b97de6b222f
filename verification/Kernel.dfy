/** The stake modifier (src/kernel.cpp): when it is regenerated, from which blocks, and with which bits. */
module Kernel {
  import opened Wrappers
  import opened Arith

  /** The fields of `CBlockIndex` the modifier depends on. */
  datatype Block = Block(hash: nat, time: nat, proofOfStake: bool, entropy: bool, generated: bool, modifier: nat,
      hashProof: nat)

  /** The modifier interval and the hash of a proof hash with the previous modifier. */
  datatype Params = Params(interval: nat, selectionHash: (nat, nat) -> nat)

  const ROUNDS := 64
  const MODIFIER_INTERVAL_RATIO := 3

  // ---------------------------------------------------------------- the last generated modifier

  /** The nearest block at or before `i` that generated a modifier, or 0. */
  function LastGenerated(chain: seq<Block>, i: nat): (g: nat)
    requires i < |chain|
    ensures g <= i && (g == 0 || chain[g].generated)
    ensures forall j :: g < j <= i ==> !chain[j].generated
  {
    if i == 0 || chain[i].generated then i else LastGenerated(chain, i - 1)
  }

  /** `GetLastStakeModifier`: the modifier and its time, or failure at a genesis block without one. */
  method GetLastStakeModifier(chain: seq<Block>) returns (r: Option<(nat, nat)>)
    ensures chain == [] ==> r == None
    ensures chain != [] ==>
      var g := LastGenerated(chain, |chain| - 1);
      r == if chain[g].generated then Some((chain[g].modifier, chain[g].time)) else None
  {
    if |chain| == 0 {
      return None;
    }
    var i := |chain| - 1;
    while i > 0 && !chain[i].generated
      invariant 0 <= i < |chain|
      invariant LastGenerated(chain, i) == LastGenerated(chain, |chain| - 1)
    {
      i := i - 1;
    }
    if !chain[i].generated {
      return None;
    }
    return Some((chain[i].modifier, chain[i].time));
  }

  // ---------------------------------------------------------------- interval sections

  function Section(p: Params, n: int): (len: int)
    requires 0 <= n < ROUNDS
    ensures len >= 0
  {
    var d := 63 + (63 - n) * (MODIFIER_INTERVAL_RATIO - 1);
    DivMonotone(0, p.interval * 63, d);
    p.interval * 63 / d
  }

  /** Sum of the first `n` sections. */
  function Sections(p: Params, n: nat): (len: int)
    requires n <= ROUNDS
    ensures len >= 0
  {
    if n == 0 then 0 else Sections(p, n - 1) + Section(p, n - 1)
  }

  method SelectionInterval(p: Params) returns (len: int)
    ensures len == Sections(p, ROUNDS)
  {
    len := 0;
    var n := 0;
    while n < ROUNDS
      invariant 0 <= n <= ROUNDS && len == Sections(p, n)
    {
      len := len + Section(p, n);
      n := n + 1;
    }
  }

  // ---------------------------------------------------------------- candidates

  /** A candidate: `pair<int64_t, uint256>`, ordered by time and then by hash. */
  datatype Candidate = Candidate(time: int, hash: nat)

  predicate AtMost(x: Candidate, y: Candidate)
  {
    x.time < y.time || (x.time == y.time && x.hash <= y.hash)
  }

  ghost predicate Sorted(q: seq<Candidate>)
  {
    forall i, j :: 0 <= i < j < |q| ==> AtMost(q[i], q[j])
  }

  function Inserted(q: seq<Candidate>, x: Candidate): (r: seq<Candidate>)
    ensures multiset(r) == multiset(q) + multiset{x} && |r| == |q| + 1
  {
    if q == [] || AtMost(q[|q| - 1], x) then q + [x]
    else
      assert q == q[..|q| - 1] + [q[|q| - 1]];
      Inserted(q[..|q| - 1], x) + [q[|q| - 1]]
  }

  lemma AtMostOrders(x: Candidate, y: Candidate, z: Candidate)
    ensures AtMost(x, y) || AtMost(y, x)
    ensures AtMost(x, y) && AtMost(y, z) ==> AtMost(x, z)
  {
  }

  lemma AppendSorted(q: seq<Candidate>, x: Candidate)
    requires Sorted(q) && forall i :: 0 <= i < |q| ==> AtMost(q[i], x)
    ensures Sorted(q + [x])
  {
    hide AtMost;
  }

  lemma {:induction false} InsertedSorted(q: seq<Candidate>, x: Candidate)
    requires Sorted(q)
    ensures Sorted(Inserted(q, x))
  {
    hide AtMost;
    if q == [] || AtMost(q[|q| - 1], x) {
      forall i | 0 <= i < |q| ensures AtMost(q[i], x) {
        AtMostOrders(q[i], q[|q| - 1], x);
      }
      AppendSorted(q, x);
    } else {
      var last := |q| - 1;
      var front := q[..last];
      InsertedSorted(front, x);
      var r := Inserted(front, x);
      forall i | 0 <= i < |r| ensures AtMost(r[i], q[last]) {
        InsertedMember(front, x, i);
        AtMostOrders(x, q[last], x);
      }
      AppendSorted(r, q[last]);
    }
  }

  lemma InsertedMember(q: seq<Candidate>, x: Candidate, i: nat)
    requires i < |Inserted(q, x)|
    ensures Inserted(q, x)[i] == x || Inserted(q, x)[i] in q
  {
    hide Inserted;
    var r := Inserted(q, x);
    assert r[i] in multiset(r);
  }

  /** `std::sort` on the candidates. */
  function SortedCandidates(q: seq<Candidate>): (r: seq<Candidate>)
    ensures multiset(r) == multiset(q) && |r| == |q|
  {
    if q == [] then [] else
      assert q == q[..|q| - 1] + [q[|q| - 1]];
      Inserted(SortedCandidates(q[..|q| - 1]), q[|q| - 1])
  }

  lemma {:induction false} SortedIsSorted(q: seq<Candidate>)
    ensures Sorted(SortedCandidates(q))
  {
    if q != [] {
      SortedIsSorted(q[..|q| - 1]);
      InsertedSorted(SortedCandidates(q[..|q| - 1]), q[|q| - 1]);
    }
  }

  /** The candidates of the blocks `from..` of the chain, oldest first. */
  function CandidatesFrom(chain: seq<Block>, from: nat): (q: seq<Candidate>)
    requires from <= |chain|
    ensures |q| == |chain| - from && forall i :: 0 <= i < |q| ==>
      q[i] == Candidate(chain[from + i].time, chain[from + i].hash)
  {
    seq(|chain| - from, i requires 0 <= i < |chain| - from => Candidate(chain[from + i].time, chain[from + i].hash))
  }

  /** The first block of the unbroken run of blocks at the end of the chain not older than `start`. */
  function FirstCandidate(chain: seq<Block>, start: int): (from: nat)
    ensures from <= |chain|
    ensures forall i :: from <= i < |chain| ==> chain[i].time >= start
    ensures from > 0 ==> chain[from - 1].time < start
  {
    if chain == [] || chain[|chain| - 1].time < start then |chain|
    else FirstCandidate(chain[..|chain| - 1], start)
  }

  function Reversed(q: seq<Candidate>): (r: seq<Candidate>)
    ensures |r| == |q| && forall i :: 0 <= i < |q| ==> r[i] == q[|q| - 1 - i]
  {
    seq(|q|, i requires 0 <= i < |q| => q[|q| - 1 - i])
  }

  /** The walk back over the chain that collects the candidates, then reversed and sorted. */
  method CollectCandidates(chain: seq<Block>, start: int) returns (q: seq<Candidate>)
    ensures q == SortedCandidates(CandidatesFrom(chain, FirstCandidate(chain, start)))
  {
    hide SortedCandidates;
    var back: seq<Candidate> := [];
    var i := |chain|;
    assert chain[..i] == chain;
    while i > 0 && chain[i - 1].time >= start
      invariant 0 <= i <= |chain| && |back| == |chain| - i
      invariant FirstCandidate(chain[..i], start) == FirstCandidate(chain, start)
      invariant forall j :: 0 <= j < |back| ==>
        back[j] == Candidate(chain[|chain| - 1 - j].time, chain[|chain| - 1 - j].hash)
      decreases i
    {
      assert chain[..i][..i - 1] == chain[..i - 1];
      back := back + [Candidate(chain[i - 1].time, chain[i - 1].hash)];
      i := i - 1;
    }
    assert Reversed(back) == CandidatesFrom(chain, i);
    q := SortedCandidates(Reversed(back));
  }

  // ---------------------------------------------------------------- one round of selection

  /** The hash a block is selected by; proof-of-stake blocks are favoured by a factor of 2^32. */
  function SelectionHash(p: Params, b: Block, modifier: nat): (h: nat)
  {
    var h := p.selectionHash(b.hashProof, modifier);
    if b.proofOfStake then h / 0x1_0000_0000 else h
  }

  /** The block index knows every candidate, under its hash and with its time. */
  ghost predicate Known(index: map<nat, Block>, q: seq<Candidate>)
  {
    forall i :: 0 <= i < |q| ==>
      q[i].hash in index && index[q[i].hash].hash == q[i].hash && index[q[i].hash].time == q[i].time
  }

  /** Candidate `i` is unselected and not later than `stop`. */
  predicate Timely(q: seq<Candidate>, selected: set<nat>, stop: int, i: int)
  {
    0 <= i < |q| && q[i].hash !in selected && q[i].time <= stop
  }

  ghost predicate Better(p: Params, index: map<nat, Block>, q: seq<Candidate>, modifier: nat, k: int, i: int)
    requires Known(index, q) && 0 <= k < |q| && 0 <= i < |q|
  {
    var hk := SelectionHash(p, index[q[k].hash], modifier);
    var hi := SelectionHash(p, index[q[i].hash], modifier);
    hk < hi || (hk == hi && k <= i)
  }

  /** `k` is what a round selects: of the unselected candidates not later than `stop` the first with the
      least selection hash, or, if all are later, the first unselected one. */
  ghost predicate IsPick(p: Params, index: map<nat, Block>, q: seq<Candidate>, selected: set<nat>, stop: int,
      modifier: nat, k: int)
    requires Known(index, q)
  {
    && 0 <= k < |q| && q[k].hash !in selected
    && if exists i :: Timely(q, selected, stop, i)
       then q[k].time <= stop && forall i :: Timely(q, selected, stop, i) ==> Better(p, index, q, modifier, k, i)
       else forall i :: 0 <= i < |q| && q[i].hash !in selected ==> k <= i
  }

  /** What the scan holds after looking at the candidates below `n`: the best of them, all in time, or
      a single late one. */
  ghost predicate BestBelow(p: Params, index: map<nat, Block>, q: seq<Candidate>, selected: set<nat>, stop: int,
      modifier: nat, n: int, k: int)
    requires Known(index, q)
  {
    && 0 <= k < n <= |q| && q[k].hash !in selected
    && if q[k].time <= stop
       then forall i :: 0 <= i < n && q[i].hash !in selected ==>
         q[i].time <= stop && Better(p, index, q, modifier, k, i)
       else forall i :: 0 <= i < n && q[i].hash !in selected ==> i == k
  }

  /** When the scan ends, at the first late candidate or at the end, the best so far is the pick. */
  lemma BestIsPick(p: Params, index: map<nat, Block>, q: seq<Candidate>, selected: set<nat>, stop: int, modifier: nat,
      n: int, k: int)
    requires Known(index, q) && Sorted(q) && BestBelow(p, index, q, selected, stop, modifier, n, k)
    requires n < |q| ==> q[n].time > stop
    ensures IsPick(p, index, q, selected, stop, modifier, k)
  {
    hide Better, Known;
    forall i | Timely(q, selected, stop, i) ensures i < n && q[k].time <= stop {
    }
    if q[k].time <= stop {
      assert Timely(q, selected, stop, k);
    }
  }

  /** `SelectBlockFromCandidates`. */
  method SelectBlock(p: Params, index: map<nat, Block>, q: seq<Candidate>, selected: set<nat>, stop: int, modifier: nat)
    returns (r: Option<Block>, ghost at: int)
    ensures Known(index, q) && Sorted(q) && r.Some? ==>
      IsPick(p, index, q, selected, stop, modifier, at) && r.value == index[q[at].hash]
    ensures Known(index, q) && r.None? ==> forall i :: 0 <= i < |q| ==> q[i].hash in selected
    ensures r.Some? ==>
      0 <= at < |q| && q[at].hash in index && r.value == index[q[at].hash] && r.value.hash !in selected
    ensures r.None? ==>
      || (exists i :: 0 <= i < |q| && q[i].hash !in index)
      || (forall i :: 0 <= i < |q| ==> q[i].hash in index && index[q[i].hash].hash in selected)
  {
    hide IsPick, BestBelow, Better;
    r, at := None, -1;
    var hashBest := 0;
    var n := 0;
    while n < |q|
      invariant 0 <= n <= |q|
      invariant Known(index, q) && r.None? ==> forall i :: 0 <= i < n ==> q[i].hash in selected
      invariant r.None? ==> forall i :: 0 <= i < n ==> q[i].hash in index && index[q[i].hash].hash in selected
      invariant r.Some? ==>
        0 <= at < |q| && q[at].hash in index && r.value == index[q[at].hash] && r.value.hash !in selected
      invariant Known(index, q) && Sorted(q) && r.Some? ==>
        && BestBelow(p, index, q, selected, stop, modifier, n, at) && 0 <= at < |q|
        && r.value == index[q[at].hash] && hashBest == SelectionHash(p, index[q[at].hash], modifier)
    {
      if q[n].hash !in index {
        return None, -1;
      }
      var b := index[q[n].hash];
      if r.Some? && b.time > stop {
        break;
      }
      if Known(index, q) && Sorted(q) && r.Some? {
        BestNext(p, index, q, selected, stop, modifier, n, at);
      }
      if b.hash !in selected {
        var h := SelectionHash(p, b, modifier);
        if r.Some? && h < hashBest {
          hashBest, r, at := h, Some(b), n;
        } else if r.None? {
          if Known(index, q) {
            BestFirst(p, index, q, selected, stop, modifier, n);
          }
          hashBest, r, at := h, Some(b), n;
        }
      }
      n := n + 1;
    }
    if Known(index, q) && Sorted(q) && r.Some? {
      BestIsPick(p, index, q, selected, stop, modifier, n, at);
    }
  }

  lemma BestFirst(p: Params, index: map<nat, Block>, q: seq<Candidate>, selected: set<nat>, stop: int, modifier: nat,
      n: int)
    requires Known(index, q) && 0 <= n < |q| && q[n].hash !in selected
    requires forall i :: 0 <= i < n ==> q[i].hash in selected
    ensures BestBelow(p, index, q, selected, stop, modifier, n + 1, n)
  {
  }

  lemma BestNext(p: Params, index: map<nat, Block>, q: seq<Candidate>, selected: set<nat>, stop: int, modifier: nat,
      n: int, k: int)
    requires Known(index, q) && Sorted(q) && 0 <= n < |q| && BestBelow(p, index, q, selected, stop, modifier, n, k)
    requires q[n].time <= stop
    ensures q[n].hash in selected ==> BestBelow(p, index, q, selected, stop, modifier, n + 1, k)
    ensures q[n].hash !in selected &&
            SelectionHash(p, index[q[n].hash], modifier) >= SelectionHash(p, index[q[k].hash], modifier) ==>
      BestBelow(p, index, q, selected, stop, modifier, n + 1, k)
    ensures q[n].hash !in selected &&
            SelectionHash(p, index[q[n].hash], modifier) < SelectionHash(p, index[q[k].hash], modifier) ==>
      BestBelow(p, index, q, selected, stop, modifier, n + 1, n)
  {
    hide SelectionHash;
    assert AtMost(q[k], q[n]);
  }

  // ---------------------------------------------------------------- bits

  /** Bit `r` of a number. */
  function BitAt(m: nat, r: nat): (b: bool)
  {
    if r == 0 then m % 2 == 1 else BitAt(m / 2, r - 1)
  }

  /** The number with the given bits, lowest first. */
  function FromBits(bits: seq<bool>): (m: nat)
  {
    if bits == [] then 0 else (if bits[0] then 1 else 0) + 2 * FromBits(bits[1..])
  }

  /** Setting the bit above all others, as the or with a shifted bit does. */
  lemma {:induction false} FromBitsAppend(bits: seq<bool>, b: bool)
    ensures FromBits(bits + [b]) == FromBits(bits) + (if b then Pow(2, |bits|) else 0)
  {
    if bits == [] {
      assert [b][1..] == [];
    } else {
      FromBitsAppend(bits[1..], b);
      assert (bits + [b])[1..] == bits[1..] + [b];
    }
  }

  lemma Halve(low: nat, m: nat)
    requires low < 2
    ensures (low + 2 * m) / 2 == m && (low + 2 * m) % 2 == low
  {
  }

  lemma {:induction false} FromBitsAt(bits: seq<bool>, r: nat)
    ensures BitAt(FromBits(bits), r) <==> r < |bits| && bits[r]
    decreases r
  {
    if bits == [] {
      if r > 0 {
        FromBitsAt([], r - 1);
      }
    } else {
      Halve(if bits[0] then 1 else 0, FromBits(bits[1..]));
      if r > 0 {
        FromBitsAt(bits[1..], r - 1);
      }
    }
  }

  // ---------------------------------------------------------------- all rounds

  ghost function HashesOf(q: seq<Candidate>, picks: seq<int>): (hs: set<nat>)
    requires forall i :: 0 <= i < |picks| ==> 0 <= picks[i] < |q|
  {
    if picks == [] then {} else HashesOf(q, picks[..|picks| - 1]) + {q[picks[|picks| - 1]].hash}
  }

  /** `picks` are the selections of the first rounds, each round one section later than the one before. */
  ghost predicate Selection(p: Params, index: map<nat, Block>, q: seq<Candidate>, start: int, modifier: nat,
      picks: seq<int>)
    requires Known(index, q)
  {
    && |picks| <= ROUNDS
    && (forall r :: 0 <= r < |picks| ==> 0 <= picks[r] < |q|)
    && forall r :: 0 <= r < |picks| ==>
         IsPick(p, index, q, HashesOf(q, picks[..r]), start + Sections(p, r + 1), modifier, picks[r])
  }

  ghost function EntropyOf(index: map<nat, Block>, q: seq<Candidate>, picks: seq<int>): (bits: seq<bool>)
    requires Known(index, q) && forall r :: 0 <= r < |picks| ==> 0 <= picks[r] < |q|
    ensures |bits| == |picks| && forall r :: 0 <= r < |picks| ==> bits[r] == index[q[picks[r]].hash].entropy
  {
    seq(|picks|, r requires 0 <= r < |picks| => index[q[picks[r]].hash].entropy)
  }

  ghost predicate DistinctHashes(q: seq<Candidate>)
  {
    forall i, j :: 0 <= i < j < |q| ==> q[i].hash != q[j].hash
  }

  lemma {:induction false} HashesCount(q: seq<Candidate>, picks: seq<int>)
    requires forall i :: 0 <= i < |picks| ==> 0 <= picks[i] < |q|
    ensures |HashesOf(q, picks)| <= |picks|
  {
    if picks != [] {
      HashesCount(q, picks[..|picks| - 1]);
    }
  }

  lemma {:induction false} HashesMember(q: seq<Candidate>, picks: seq<int>, i: int)
    requires (forall j :: 0 <= j < |picks| ==> 0 <= picks[j] < |q|) && 0 <= i < |picks|
    ensures q[picks[i]].hash in HashesOf(q, picks)
  {
    if i < |picks| - 1 {
      HashesMember(q, picks[..|picks| - 1], i);
    }
  }

  lemma {:induction false} TooManyHashes(q: seq<Candidate>, hs: set<nat>)
    requires DistinctHashes(q) && forall i :: 0 <= i < |q| ==> q[i].hash in hs
    ensures |q| <= |hs|
  {
    if q != [] {
      var last := |q| - 1;
      TooManyHashes(q[..last], hs - {q[last].hash});
    }
  }

  /** As long as fewer blocks are selected than there are candidates, some candidate is left. */
  lemma SomeLeft(q: seq<Candidate>, picks: seq<int>)
    requires DistinctHashes(q) && |picks| < |q| && forall i :: 0 <= i < |picks| ==> 0 <= picks[i] < |q|
    ensures exists i :: 0 <= i < |q| && q[i].hash !in HashesOf(q, picks)
  {
    HashesCount(q, picks);
    if forall i :: 0 <= i < |q| ==> q[i].hash in HashesOf(q, picks) {
      TooManyHashes(q, HashesOf(q, picks));
    }
  }

  /** Every round selects a block not selected before. */
  lemma PicksDistinct(p: Params, index: map<nat, Block>, q: seq<Candidate>, start: int, modifier: nat,
      picks: seq<int>, i: int, j: int)
    requires Known(index, q) && Selection(p, index, q, start, modifier, picks) && 0 <= i < j < |picks|
    ensures picks[i] != picks[j]
  {
    assert IsPick(p, index, q, HashesOf(q, picks[..j]), start + Sections(p, j + 1), modifier, picks[j]);
    HashesMember(q, picks[..j], i);
  }

  /** The loop over the rounds in `ComputeNextStakeModifier`. */
  method SelectRounds(p: Params, index: map<nat, Block>, q: seq<Candidate>, start: int, modifier: nat)
    returns (ok: bool, next: nat)
    ensures Known(index, q) && Sorted(q) && DistinctHashes(q) ==>
      ok && exists picks :: FullSelection(p, index, q, start, modifier, picks, next)
  {
    hide RoundsDone, DistinctHashes, Sorted, Known, Section, Sections, IsPick, FullSelection;
    next := 0;
    ghost var picks: seq<int> := [];
    ghost var good := Known(index, q) && Sorted(q) && DistinctHashes(q);
    var stop := start;
    var selected: set<nat> := {};
    var power := 1;
    var round := 0;
    NoSections(p);
    RoundsBegin(p, index, q, start, modifier);
    while round < ROUNDS && round < |q|
      invariant 0 <= round <= ROUNDS && round <= |q| && power == Pow(2, round) && stop == start + Sections(p, round)
      invariant good ==> RoundsDone(p, index, q, start, modifier, picks, round, selected, next)
    {
      NextSection(p, round);
      stop := stop + Section(p, round);
      var r, at := SelectBlock(p, index, q, selected, stop, modifier);
      if r.None? {
        ok := false;
        if good {
          RoundsGoOn(p, index, q, start, modifier, picks, round, selected, next);
        }
        return;
      }
      if good {
        RoundsNext(p, index, q, start, modifier, picks, round, selected, next, at);
        picks := picks + [at];
      }
      next := next + if r.value.entropy then power else 0;
      selected := selected + {r.value.hash};
      power := power * 2;
      round := round + 1;
    }
    ok := true;
    if good {
      RoundsEnd(p, index, q, start, modifier, picks, round, selected, next);
    }
  }

  /** What the loop holds after `round` rounds. */
  ghost predicate RoundsDone(p: Params, index: map<nat, Block>, q: seq<Candidate>, start: int, modifier: nat,
                             picks: seq<int>, round: nat, selected: set<nat>, next: nat)
  {
    && Known(index, q)
    && |picks| == round <= ROUNDS && Selection(p, index, q, start, modifier, picks)
    && selected == HashesOf(q, picks) && next == FromBits(EntropyOf(index, q, picks))
  }

  lemma NoSections(p: Params)
    ensures Sections(p, 0) == 0
  {
  }

  lemma NextSection(p: Params, n: nat)
    requires n < ROUNDS
    ensures Sections(p, n + 1) == Sections(p, n) + Section(p, n)
  {
  }

  lemma RoundsGoOn(p: Params, index: map<nat, Block>, q: seq<Candidate>, start: int, modifier: nat,
                   picks: seq<int>, round: nat, selected: set<nat>, next: nat)
    requires RoundsDone(p, index, q, start, modifier, picks, round, selected, next) && round < |q| && DistinctHashes(q)
    ensures exists i :: 0 <= i < |q| && q[i].hash !in selected
  {
    hide IsPick, FromBits, DistinctHashes, EntropyOf;
    SomeLeft(q, picks);
  }

  lemma RoundsEnd(p: Params, index: map<nat, Block>, q: seq<Candidate>, start: int, modifier: nat,
                  picks: seq<int>, round: nat, selected: set<nat>, next: nat)
    requires RoundsDone(p, index, q, start, modifier, picks, round, selected, next)
    requires round == if |q| < ROUNDS then |q| else ROUNDS
    ensures FullSelection(p, index, q, start, modifier, picks, next)
  {
    hide Selection, EntropyOf, FromBits, Known, HashesOf;
  }

  lemma RoundsBegin(p: Params, index: map<nat, Block>, q: seq<Candidate>, start: int, modifier: nat)
    ensures Known(index, q) ==> RoundsDone(p, index, q, start, modifier, [], 0, {}, 0)
  {
  }

  lemma PickInRange(p: Params, index: map<nat, Block>, q: seq<Candidate>, selected: set<nat>, stop: int,
      modifier: nat, k: int)
    requires Known(index, q) && IsPick(p, index, q, selected, stop, modifier, k)
    ensures 0 <= k < |q|
  {
  }

  lemma RoundsNext(p: Params, index: map<nat, Block>, q: seq<Candidate>, start: int, modifier: nat,
                   picks: seq<int>, round: nat, selected: set<nat>, next: nat, k: int)
    requires RoundsDone(p, index, q, start, modifier, picks, round, selected, next) && round < ROUNDS && Known(index, q)
    requires IsPick(p, index, q, selected, start + Sections(p, round + 1), modifier, k)
    ensures 0 <= k < |q| && q[k].hash in index && index[q[k].hash].hash == q[k].hash
    ensures RoundsDone(p, index, q, start, modifier, picks + [k], round + 1, selected + {q[k].hash},
                       next + if index[q[k].hash].entropy then Pow(2, round) else 0)
  {
    hide IsPick, FromBits, Pow, EntropyOf, HashesOf, Sections, Selection;
    PickInRange(p, index, q, selected, start + Sections(p, round + 1), modifier, k);
    SelectionNext(p, index, q, start, modifier, picks, k);
  }

  lemma SelectionNext(p: Params, index: map<nat, Block>, q: seq<Candidate>, start: int, modifier: nat,
      picks: seq<int>, k: int)
    requires Known(index, q) && Selection(p, index, q, start, modifier, picks) && |picks| < ROUNDS
    requires IsPick(p, index, q, HashesOf(q, picks), start + Sections(p, |picks| + 1), modifier, k)
    ensures 0 <= k < |q| && Selection(p, index, q, start, modifier, picks + [k])
    ensures HashesOf(q, picks + [k]) == HashesOf(q, picks) + {q[k].hash}
    ensures FromBits(EntropyOf(index, q, picks + [k]))
         == FromBits(EntropyOf(index, q, picks)) + (if index[q[k].hash].entropy then Pow(2, |picks|) else 0)
  {
    hide IsPick, Known, FromBits, Pow, EntropyOf, HashesOf, Sections;
    PickInRange(p, index, q, HashesOf(q, picks), start + Sections(p, |picks| + 1), modifier, k);
    var all := picks + [k];
    assert all[..|picks|] == picks;
    forall r | 0 <= r < |all|
      ensures IsPick(p, index, q, HashesOf(q, all[..r]), start + Sections(p, r + 1), modifier, all[r])
    {
      if r < |picks| {
        assert all[..r] == picks[..r];
      }
    }
    HashesAppend(q, picks, k);
    EntropyAppend(index, q, picks, k);
  }

  lemma HashesAppend(q: seq<Candidate>, picks: seq<int>, k: int)
    requires (forall i :: 0 <= i < |picks| ==> 0 <= picks[i] < |q|) && 0 <= k < |q|
    ensures HashesOf(q, picks + [k]) == HashesOf(q, picks) + {q[k].hash}
  {
    assert (picks + [k])[..|picks|] == picks;
  }

  lemma EntropyAppend(index: map<nat, Block>, q: seq<Candidate>, picks: seq<int>, k: int)
    requires Known(index, q) && (forall i :: 0 <= i < |picks| ==> 0 <= picks[i] < |q|) && 0 <= k < |q|
    ensures FromBits(EntropyOf(index, q, picks + [k]))
         == FromBits(EntropyOf(index, q, picks)) + (if index[q[k].hash].entropy then Pow(2, |picks|) else 0)
  {
    hide FromBits, Pow, EntropyOf;
    EntropyExtends(index, q, picks, k);
    FromBitsAppend(EntropyOf(index, q, picks), index[q[k].hash].entropy);
  }

  lemma EntropyExtends(index: map<nat, Block>, q: seq<Candidate>, picks: seq<int>, k: int)
    requires Known(index, q) && (forall i :: 0 <= i < |picks| ==> 0 <= picks[i] < |q|) && 0 <= k < |q|
    ensures EntropyOf(index, q, picks + [k]) == EntropyOf(index, q, picks) + [index[q[k].hash].entropy]
  {
    var all := picks + [k];
    forall r | 0 <= r < |all|
      ensures EntropyOf(index, q, all)[r] == (EntropyOf(index, q, picks) + [index[q[k].hash].entropy])[r]
    {
      assert r < |picks| ==> all[r] == picks[r];
    }
  }

  // ---------------------------------------------------------------- the next modifier

  /** The block index holds the chain: distinct hashes, each found under its hash. */
  ghost predicate Indexed(index: map<nat, Block>, chain: seq<Block>)
  {
    && (forall i :: 0 <= i < |chain| ==> chain[i].hash in index && index[chain[i].hash] == chain[i])
    && forall i, j :: 0 <= i < j < |chain| ==> chain[i].hash != chain[j].hash
  }

  /** The modifier interval a time falls in. */
  function IntervalOf(p: Params, time: nat): (n: nat)
    requires p.interval > 0
  {
    time / p.interval
  }

  /** The beginning of the selection interval for a block on top of `chain`. */
  function SelectionStart(p: Params, chain: seq<Block>): (start: int)
    requires p.interval > 0 && chain != []
  {
    IntervalOf(p, chain[|chain| - 1].time) * p.interval - Sections(p, ROUNDS)
  }

  function Candidates(p: Params, chain: seq<Block>): (q: seq<Candidate>)
    requires p.interval > 0 && chain != []
  {
    SortedCandidates(CandidatesFrom(chain, FirstCandidate(chain, SelectionStart(p, chain))))
  }

  /** One selection per round, for 64 rounds or as many as there are candidates, and their entropy bits. */
  ghost predicate FullSelection(p: Params, index: map<nat, Block>, q: seq<Candidate>, start: int, previous: nat,
      picks: seq<int>, modifier: nat)
    requires Known(index, q)
  {
    && Selection(p, index, q, start, previous, picks)
    && |picks| == (if |q| < ROUNDS then |q| else ROUNDS)
    && modifier == FromBits(EntropyOf(index, q, picks))
  }

  /** `modifier` consists of the entropy bits of the blocks selected on `chain`, one per round. */
  ghost predicate Regenerated(p: Params, index: map<nat, Block>, chain: seq<Block>, previous: nat, modifier: nat)
    requires p.interval > 0 && chain != []
  {
    var q := Candidates(p, chain);
    && Known(index, q)
    && exists picks :: FullSelection(p, index, q, SelectionStart(p, chain), previous, picks, modifier)
  }

  /** The last block has left the interval of the last generation. */
  predicate Ripe(p: Params, chain: seq<Block>)
    requires p.interval > 0 && chain != []
  {
    IntervalOf(p, chain[LastGenerated(chain, |chain| - 1)].time) < IntervalOf(p, chain[|chain| - 1].time)
  }

  /** What a block on top of `chain` must carry. */
  ghost predicate Computed(p: Params, index: map<nat, Block>, chain: seq<Block>, modifier: nat, generated: bool)
    requires p.interval > 0
  {
    if chain == [] then modifier == 0 && generated
    else
      var g := LastGenerated(chain, |chain| - 1);
      && chain[g].generated
      && if Ripe(p, chain)
         then generated && Regenerated(p, index, chain, chain[g].modifier, modifier)
         else modifier == chain[g].modifier && !generated
  }

  lemma CandidatesGood(p: Params, index: map<nat, Block>, chain: seq<Block>)
    requires p.interval > 0 && chain != [] && Indexed(index, chain)
    ensures var q := Candidates(p, chain); Known(index, q) && Sorted(q) && DistinctHashes(q)
  {
    hide LastGenerated;
    var from := FirstCandidate(chain, SelectionStart(p, chain));
    var raw := CandidatesFrom(chain, from);
    SortedIsSorted(raw);
    var q := SortedCandidates(raw);
    forall i | 0 <= i < |q|
      ensures q[i].hash in index && index[q[i].hash].hash == q[i].hash && index[q[i].hash].time == q[i].time
    {
      assert q[i] in multiset(q);
      assert q[i] in raw;
    }
    PermutedDistinct(raw, q);
  }

  /** Candidates with distinct hashes stay so when they are permuted. */
  lemma PermutedDistinct(q: seq<Candidate>, r: seq<Candidate>)
    requires multiset(q) == multiset(r) && DistinctHashes(q)
    ensures DistinctHashes(r)
  {
    forall i, j | 0 <= i < j < |r| ensures r[i].hash != r[j].hash {
      if r[i].hash == r[j].hash {
        assert r[i] in multiset(q) && r[j] in multiset(q);
        var a :| 0 <= a < |q| && q[a] == r[i];
        var b :| 0 <= b < |q| && q[b] == r[j];
        assert a == b;
        TwiceInMultiset(r, i, j);
        OnceInMultiset(q, a);
      }
    }
  }

  lemma TwiceInMultiset(r: seq<Candidate>, i: int, j: int)
    requires 0 <= i < j < |r| && r[i] == r[j]
    ensures multiset(r)[r[i]] >= 2
  {
    assert r == r[..j] + [r[j]] + r[j + 1..];
    assert r[i] in multiset(r[..j]) by { assert r[..j][i] == r[i]; }
  }

  lemma {:induction false} OnceInMultiset(q: seq<Candidate>, a: int)
    requires 0 <= a < |q| && DistinctHashes(q)
    ensures multiset(q)[q[a]] == 1
  {
    assert q == q[..a] + [q[a]] + q[a + 1..];
    assert q[a] !in q[..a] && q[a] !in q[a + 1..];
  }

  /** `ComputeNextStakeModifier`: on a well-formed chain it always succeeds, with the modifier every block must
      carry. */
  method ComputeNextStakeModifier(p: Params, index: map<nat, Block>, chain: seq<Block>)
      returns (ok: bool, modifier: nat, generated: bool)
    requires p.interval > 0
    ensures Indexed(index, chain) && (chain != [] ==> chain[0].generated) ==>
      ok && Computed(p, index, chain, modifier, generated)
  {
    hide Candidates, Indexed, Selection, Sorted, DistinctHashes, Known, SelectionStart;
    if |chain| == 0 {
      return true, 0, true;
    }
    var last := GetLastStakeModifier(chain);
    if last.None? {
      return false, 0, false;
    }
    var (previous, modifierTime) := last.value;
    if IntervalOf(p, modifierTime) >= IntervalOf(p, chain[|chain| - 1].time) {
      return true, previous, false;
    }
    var len := SelectionInterval(p);
    var start := IntervalOf(p, chain[|chain| - 1].time) * p.interval - len;
    StartIs(p, chain, start);
    var q := CollectCandidates(chain, start);
    CandidatesAre(p, chain, start);
    if Indexed(index, chain) {
      CandidatesGood(p, index, chain);
    }
    ok, modifier := SelectRounds(p, index, q, start, previous);
    generated := ok;
  }

  lemma StartIs(p: Params, chain: seq<Block>, start: int)
    requires p.interval > 0 && chain != []
    requires start == IntervalOf(p, chain[|chain| - 1].time) * p.interval - Sections(p, ROUNDS)
    ensures start == SelectionStart(p, chain)
  {
  }

  lemma CandidatesAre(p: Params, chain: seq<Block>, start: int)
    requires p.interval > 0 && chain != [] && start == SelectionStart(p, chain)
    ensures SortedCandidates(CandidatesFrom(chain, FirstCandidate(chain, start))) == Candidates(p, chain)
  {
  }

  // ---------------------------------------------------------------- chains

  /** Every block of the chain carries what was computed for it on top of its predecessors. */
  ghost predicate WellGenerated(p: Params, index: map<nat, Block>, chain: seq<Block>)
    requires p.interval > 0
  {
    forall i :: 0 <= i < |chain| ==> Computed(p, index, chain[..i], chain[i].modifier, chain[i].generated)
  }

  lemma {:induction false} LastGeneratedPrefix(chain: seq<Block>, n: nat, i: nat)
    requires i < n <= |chain|
    ensures LastGenerated(chain[..n], i) == LastGenerated(chain, i)
  {
    if i > 0 && !chain[i].generated {
      LastGeneratedPrefix(chain, n, i - 1);
    }
  }

  /** The search for the last generated modifier never fails: it ends at the genesis block at the latest. */
  lemma GenesisGenerates(p: Params, index: map<nat, Block>, chain: seq<Block>, i: nat)
    requires p.interval > 0 && WellGenerated(p, index, chain) && i < |chain|
    ensures chain[0].generated && chain[0].modifier == 0
    ensures chain[LastGenerated(chain, i)].generated
  {
    hide Regenerated, IntervalOf, Ripe;
    assert Computed(p, index, chain[..0], chain[0].modifier, chain[0].generated);
  }

  /** Every block carries the modifier of its nearest generating ancestor or self. */
  lemma {:induction false} CarriesNearest(p: Params, index: map<nat, Block>, chain: seq<Block>, i: nat)
    requires p.interval > 0 && WellGenerated(p, index, chain) && i < |chain|
    ensures chain[i].modifier == chain[LastGenerated(chain, i)].modifier
  {
    hide Computed, LastGenerated;
    LastGeneratedStep(chain, i);
    if i > 0 && !chain[i].generated {
      assert Computed(p, index, chain[..i], chain[i].modifier, chain[i].generated);
      ComputedCarries(p, index, chain[..i], chain[i].modifier);
      LastGeneratedPrefix(chain, i, i - 1);
      CarriesNearest(p, index, chain, i - 1);
    }
  }

  lemma LastGeneratedStep(chain: seq<Block>, i: nat)
    requires i < |chain|
    ensures LastGenerated(chain, i) == if i == 0 || chain[i].generated then i else LastGenerated(chain, i - 1)
  {
  }

  lemma ComputedCarries(p: Params, index: map<nat, Block>, chain: seq<Block>, modifier: nat)
    requires p.interval > 0 && chain != [] && Computed(p, index, chain, modifier, false)
    ensures modifier == chain[LastGenerated(chain, |chain| - 1)].modifier
  {
    hide Regenerated, Ripe, LastGenerated;
  }

  /** A block generates exactly when its parent has left the interval of the last generation. */
  lemma GeneratesAfterInterval(p: Params, index: map<nat, Block>, chain: seq<Block>, j: nat)
    requires p.interval > 0 && WellGenerated(p, index, chain) && 0 < j < |chain|
    ensures chain[j].generated <==>
      IntervalOf(p, chain[LastGenerated(chain, j - 1)].time) < IntervalOf(p, chain[j - 1].time)
  {
    hide Regenerated, IntervalOf, LastGenerated, Ripe;
    assert Computed(p, index, chain[..j], chain[j].modifier, chain[j].generated);
    RipePrefix(p, chain, j);
  }

  lemma RipePrefix(p: Params, chain: seq<Block>, j: nat)
    requires p.interval > 0 && 0 < j < |chain|
    ensures Ripe(p, chain[..j]) <==>
      IntervalOf(p, chain[LastGenerated(chain, j - 1)].time) < IntervalOf(p, chain[j - 1].time)
  {
    hide IntervalOf, LastGenerated;
    LastGeneratedPrefix(chain, j, j - 1);
  }

  predicate TimesAscend(chain: seq<Block>)
  {
    forall i, j :: 0 <= i <= j < |chain| ==> chain[i].time <= chain[j].time
  }

  lemma IntervalMonotone(p: Params, a: nat, b: nat)
    requires a <= b && p.interval > 0
    ensures IntervalOf(p, a) <= IntervalOf(p, b)
  {
    Arith.DivMonotone(a, b, p.interval);
  }

  /** Every generating block lies in a later modifier interval than all generating blocks before it. */
  ghost predicate GenerationsAscend(p: Params, chain: seq<Block>)
    requires p.interval > 0
  {
    forall i, j :: 0 <= i < j < |chain| && chain[i].generated && chain[j].generated ==>
      IntervalOf(p, chain[i].time) < IntervalOf(p, chain[j].time)
  }

  /** The parent of block `j` has left the interval of the last generation: the code's guard. */
  predicate ParentLeft(p: Params, chain: seq<Block>, j: nat)
    requires p.interval > 0 && 0 < j < |chain|
  {
    IntervalOf(p, chain[LastGenerated(chain, j - 1)].time) < IntervalOf(p, chain[j - 1].time)
  }

  /** Whenever its parent has left the interval of the last generation, so has the block itself. */
  ghost predicate BlocksFollow(p: Params, chain: seq<Block>)
    requires p.interval > 0
  {
    forall j :: 0 < j < |chain| && ParentLeft(p, chain, j) ==>
      IntervalOf(p, chain[LastGenerated(chain, j - 1)].time) < IntervalOf(p, chain[j].time)
  }

  /** The intervals of generating blocks increase exactly if no block falls back into the interval its parent left. */
  lemma GenerationsAscendIff(p: Params, index: map<nat, Block>, chain: seq<Block>)
    requires p.interval > 0 && WellGenerated(p, index, chain)
    ensures GenerationsAscend(p, chain) <==> BlocksFollow(p, chain)
  {
    hide WellGenerated, IntervalOf, LastGenerated;
    if GenerationsAscend(p, chain) {
      forall j | 0 < j < |chain| && ParentLeft(p, chain, j)
        ensures IntervalOf(p, chain[LastGenerated(chain, j - 1)].time) < IntervalOf(p, chain[j].time)
      {
        GeneratesAfterInterval(p, index, chain, j);
        GenesisGenerates(p, index, chain, j - 1);
      }
    }
    if BlocksFollow(p, chain) {
      forall i, j | 0 <= i < j < |chain| && chain[i].generated && chain[j].generated
        ensures IntervalOf(p, chain[i].time) < IntervalOf(p, chain[j].time)
      {
        FollowersAscend(p, index, chain, i, j);
      }
    }
  }

  lemma {:induction false} FollowersAscend(p: Params, index: map<nat, Block>, chain: seq<Block>, i: nat, j: nat)
    requires p.interval > 0 && WellGenerated(p, index, chain) && BlocksFollow(p, chain)
    requires i < j < |chain| && chain[i].generated && chain[j].generated
    ensures IntervalOf(p, chain[i].time) < IntervalOf(p, chain[j].time)
  {
    hide WellGenerated, IntervalOf, LastGenerated;
    var g := LastGenerated(chain, j - 1);
    GeneratesAfterInterval(p, index, chain, j);
    assert i <= g;
    if i < g {
      GenesisGenerates(p, index, chain, j - 1);
      FollowersAscend(p, index, chain, i, g);
    }
  }

  /** No two generating blocks lie in the same modifier interval. */
  ghost predicate NoneShared(p: Params, chain: seq<Block>)
    requires p.interval > 0
  {
    forall i, j :: 0 <= i < j < |chain| && chain[i].generated && chain[j].generated ==>
      IntervalOf(p, chain[i].time) != IntervalOf(p, chain[j].time)
  }

  /** `FutureDrift`. */
  const FUTURE_DRIFT: nat := 10 * 60

  /** No block lies further behind its parent than `AcceptBlock` allows. */
  predicate DriftKept(chain: seq<Block>)
  {
    forall j :: 0 < j < |chain| ==> chain[j - 1].time <= chain[j].time + FUTURE_DRIFT
  }

  lemma IntervalDrop(p: Params, a: nat, b: nat)
    requires p.interval > 0 && a <= b + p.interval
    ensures IntervalOf(p, a) <= IntervalOf(p, b) + 1
  {
    Arith.DivMonotone(a, b + p.interval, p.interval);
    Arith.DivModUnique(b + p.interval, p.interval, b / p.interval + 1, b % p.interval);
  }

  /** One generation per interval. It follows whenever no block falls back into the interval its parent left; and
      if an interval is no shorter than the drift allowed, as on the main network, it holds in no other case. */
  lemma OneGenerationIff(p: Params, index: map<nat, Block>, chain: seq<Block>)
    requires p.interval > 0 && WellGenerated(p, index, chain)
    ensures BlocksFollow(p, chain) ==> NoneShared(p, chain)
    ensures p.interval >= FUTURE_DRIFT && DriftKept(chain) ==> (NoneShared(p, chain) <==> BlocksFollow(p, chain))
  {
    hide WellGenerated, IntervalOf, LastGenerated;
    GenerationsAscendIff(p, index, chain);
    if p.interval >= FUTURE_DRIFT && DriftKept(chain) && NoneShared(p, chain) {
      forall j | 0 < j < |chain| && ParentLeft(p, chain, j)
        ensures IntervalOf(p, chain[LastGenerated(chain, j - 1)].time) < IntervalOf(p, chain[j].time)
      {
        GeneratesAfterInterval(p, index, chain, j);
        GenesisGenerates(p, index, chain, j - 1);
        IntervalDrop(p, chain[j - 1].time, chain[j].time);
      }
    }
  }

  /** When times never decrease, the intervals of generating blocks increase. */
  lemma OneGenerationPerInterval(p: Params, index: map<nat, Block>, chain: seq<Block>)
    requires p.interval > 0 && WellGenerated(p, index, chain) && TimesAscend(chain)
    ensures GenerationsAscend(p, chain)
  {
    hide WellGenerated, IntervalOf, LastGenerated, GenerationsAscend;
    forall j | 0 < j < |chain|
      ensures IntervalOf(p, chain[j - 1].time) <= IntervalOf(p, chain[j].time)
    {
      IntervalMonotone(p, chain[j - 1].time, chain[j].time);
    }
    GenerationsAscendIff(p, index, chain);
  }

  /** Bit `r` of a regenerated modifier is the entropy bit of round `r`; there are no higher bits. */
  lemma RegeneratedBits(p: Params, index: map<nat, Block>, chain: seq<Block>, previous: nat, modifier: nat)
    requires p.interval > 0 && chain != [] && Regenerated(p, index, chain, previous, modifier)
    ensures exists picks ::
      && FullSelection(p, index, Candidates(p, chain), SelectionStart(p, chain), previous, picks, modifier)
      && forall r: nat :: BitAt(modifier, r) <==> r < |picks| && index[Candidates(p, chain)[picks[r]].hash].entropy
  {
    hide Candidates, BitAt, FromBits, Sections;
    var q := Candidates(p, chain);
    var picks :| FullSelection(p, index, q, SelectionStart(p, chain), previous, picks, modifier);
    forall r: nat ensures BitAt(modifier, r) <==> r < |picks| && index[q[picks[r]].hash].entropy {
      FromBitsAt(EntropyOf(index, q, picks), r);
    }
  }

  // ---------------------------------------------------------------- the modifier is determined by the chain

  lemma PickUnique(p: Params, index: map<nat, Block>, q: seq<Candidate>, selected: set<nat>, stop: int, modifier: nat,
      k: int, k': int)
    requires Known(index, q)
    requires IsPick(p, index, q, selected, stop, modifier, k) && IsPick(p, index, q, selected, stop, modifier, k')
    ensures k == k'
  {
    hide SelectionHash;
    if exists i :: Timely(q, selected, stop, i) {
      assert Timely(q, selected, stop, k) && Timely(q, selected, stop, k');
    }
  }

  lemma {:induction false} SelectionUnique(p: Params, index: map<nat, Block>, q: seq<Candidate>, start: int,
      modifier: nat, a: seq<int>, b: seq<int>, n: nat)
    requires Known(index, q) && Selection(p, index, q, start, modifier, a) && Selection(p, index, q, start, modifier, b)
    requires n <= |a| && n <= |b|
    ensures a[..n] == b[..n]
  {
    hide IsPick, Known, HashesOf, Sections;
    if n > 0 {
      SelectionUnique(p, index, q, start, modifier, a, b, n - 1);
      var r := n - 1;
      assert IsPick(p, index, q, HashesOf(q, a[..r]), start + Sections(p, r + 1), modifier, a[r]);
      assert IsPick(p, index, q, HashesOf(q, b[..r]), start + Sections(p, r + 1), modifier, b[r]);
      PickUnique(p, index, q, HashesOf(q, a[..r]), start + Sections(p, r + 1), modifier, a[r], b[r]);
      assert a[..n] == a[..r] + [a[r]] && b[..n] == b[..r] + [b[r]];
    }
  }

  /** Nodes with the same chain and block index agree on the next modifier. */
  lemma ComputedUnique(p: Params, index: map<nat, Block>, chain: seq<Block>, m: nat, g: bool, m': nat, g': bool)
    requires p.interval > 0 && Computed(p, index, chain, m, g) && Computed(p, index, chain, m', g')
    ensures m == m' && g == g'
  {
    hide Candidates, FromBits, Selection, SelectionStart, LastGenerated;
    if chain != [] && g {
      var q := Candidates(p, chain);
      var previous := chain[LastGenerated(chain, |chain| - 1)].modifier;
      var start := SelectionStart(p, chain);
      var a :| FullSelection(p, index, q, start, previous, a, m);
      var b :| FullSelection(p, index, q, start, previous, b, m');
      SelectionUnique(p, index, q, start, previous, a, b, |a|);
      assert a == a[..|a|] && b == b[..|a|];
    }
  }

  // ---------------------------------------------------------------- why times must not decrease

  lemma {:induction false} ScanExists(p: Params, index: map<nat, Block>, q: seq<Candidate>, selected: set<nat>,
      stop: int, modifier: nat, n: nat)
    requires Known(index, q) && Sorted(q) && n <= |q| && exists i :: 0 <= i < n && q[i].hash !in selected
    ensures exists k, m ::
      0 <= m <= n && BestBelow(p, index, q, selected, stop, modifier, m, k) && (m < n ==> q[m].time > stop)
  {
    hide SelectionHash, Better, BestBelow;
    var last := n - 1;
    if exists i :: 0 <= i < last && q[i].hash !in selected {
      ScanExists(p, index, q, selected, stop, modifier, last);
      var k, m :| 0 <= m <= last && BestBelow(p, index, q, selected, stop, modifier, m, k) &&
        (m < last ==> q[m].time > stop);
      if m == last && q[m].time <= stop {
        BestInRange(p, index, q, selected, stop, modifier, m, k);
        BestNext(p, index, q, selected, stop, modifier, last, k);
      }
    } else {
      BestFirst(p, index, q, selected, stop, modifier, last);
    }
  }

  lemma BestInRange(p: Params, index: map<nat, Block>, q: seq<Candidate>, selected: set<nat>, stop: int,
      modifier: nat, n: int, k: int)
    requires Known(index, q) && BestBelow(p, index, q, selected, stop, modifier, n, k)
    ensures 0 <= k < n <= |q|
  {
  }

  lemma {:induction false} SelectionExists(p: Params, index: map<nat, Block>, q: seq<Candidate>, start: int,
      modifier: nat, n: nat)
    requires Known(index, q) && Sorted(q) && DistinctHashes(q) && n <= ROUNDS && n <= |q|
    ensures exists picks :: |picks| == n && Selection(p, index, q, start, modifier, picks)
  {
    hide IsPick, BestBelow, Known, Sorted, DistinctHashes, Selection, HashesOf, Sections;
    if n == 0 {
      RoundsBegin(p, index, q, start, modifier);
    } else {
      SelectionExists(p, index, q, start, modifier, n - 1);
      var picks :| |picks| == n - 1 && Selection(p, index, q, start, modifier, picks);
      SelectionInRange(p, index, q, start, modifier, picks);
      SomeLeft(q, picks);
      var stop := start + Sections(p, n);
      ScanExists(p, index, q, HashesOf(q, picks), stop, modifier, |q|);
      var k, m :| 0 <= m <= |q| && BestBelow(p, index, q, HashesOf(q, picks), stop, modifier, m, k) &&
        (m < |q| ==> q[m].time > stop);
      BestIsPick(p, index, q, HashesOf(q, picks), stop, modifier, m, k);
      SelectionNext(p, index, q, start, modifier, picks, k);
      assert |picks + [k]| == n;
    }
  }

  lemma SelectionInRange(p: Params, index: map<nat, Block>, q: seq<Candidate>, start: int, modifier: nat,
      picks: seq<int>)
    requires Known(index, q) && Selection(p, index, q, start, modifier, picks)
    ensures forall r :: 0 <= r < |picks| ==> 0 <= picks[r] < |q|
  {
  }

  /** Together with `ComputedUnique`: every well-formed chain has exactly one next modifier. */
  lemma ComputedExists(p: Params, index: map<nat, Block>, chain: seq<Block>)
    requires p.interval > 0 && Indexed(index, chain) && (chain != [] ==> chain[0].generated)
    ensures exists m, g :: Computed(p, index, chain, m, g)
  {
    hide Candidates, FromBits, SelectionStart, Indexed, Sorted, DistinctHashes, Selection, Known, IntervalOf;
    if chain == [] {
      assert Computed(p, index, chain, 0, true);
    } else {
      var g := LastGenerated(chain, |chain| - 1);
      if Ripe(p, chain) {
        var q := Candidates(p, chain);
        var start := SelectionStart(p, chain);
        CandidatesGood(p, index, chain);
        var n := if |q| < ROUNDS then |q| else ROUNDS;
        SelectionExists(p, index, q, start, chain[g].modifier, n);
        var picks :| |picks| == n && Selection(p, index, q, start, chain[g].modifier, picks);
        SelectionInRange(p, index, q, start, chain[g].modifier, picks);
        var m := FromBits(EntropyOf(index, q, picks));
        assert FullSelection(p, index, q, start, chain[g].modifier, picks, m);
        assert Computed(p, index, chain, m, true);
      } else {
        assert Computed(p, index, chain, chain[g].modifier, false);
      }
    }
  }

  lemma {:induction false} NoBits(bits: seq<bool>)
    requires forall i :: 0 <= i < |bits| ==> !bits[i]
    ensures FromBits(bits) == 0
  {
    if bits != [] {
      NoBits(bits[1..]);
    }
  }

  lemma NoEntropy(p: Params, index: map<nat, Block>, chain: seq<Block>, previous: nat, modifier: nat)
    requires p.interval > 0 && chain != [] && Regenerated(p, index, chain, previous, modifier)
    requires forall h :: h in index ==> !index[h].entropy
    ensures modifier == 0
  {
    hide Candidates, Selection, SelectionStart, FromBits;
    var q := Candidates(p, chain);
    var picks :| FullSelection(p, index, q, SelectionStart(p, chain), previous, picks, modifier);
    SelectionInRange(p, index, q, SelectionStart(p, chain), previous, picks);
    NoBits(EntropyOf(index, q, picks));
  }

  /** An indexed chain on which no block has entropy, so that every modifier is zero. */
  ghost predicate Plain(index: map<nat, Block>, chain: seq<Block>)
  {
    && Indexed(index, chain)
    && (forall h :: h in index ==> !index[h].entropy)
    && forall i :: 0 <= i < |chain| ==> chain[i].modifier == 0
  }

  lemma PlainPrefix(index: map<nat, Block>, chain: seq<Block>, n: nat)
    requires Plain(index, chain) && n <= |chain|
    ensures Plain(index, chain[..n])
  {
  }

  lemma PlainComputed(p: Params, index: map<nat, Block>, chain: seq<Block>)
    requires p.interval > 0 && chain != [] && Plain(index, chain) && chain[0].generated
    ensures Computed(p, index, chain, 0, Ripe(p, chain))
  {
    hide Regenerated, Ripe, Indexed;
    ComputedExists(p, index, chain);
    var m, g :| Computed(p, index, chain, m, g);
    if Ripe(p, chain) {
      NoEntropy(p, index, chain, chain[LastGenerated(chain, |chain| - 1)].modifier, m);
    }
  }

  lemma PlainGenerated(p: Params, index: map<nat, Block>, chain: seq<Block>)
    requires p.interval > 0 && chain != [] && Plain(index, chain) && chain[0].generated
    requires forall j :: 0 < j < |chain| ==> (chain[j].generated <==> ParentLeft(p, chain, j))
    ensures WellGenerated(p, index, chain)
  {
    hide LastGenerated, IntervalOf, Computed, Plain, Ripe;
    forall i | 0 <= i < |chain| ensures Computed(p, index, chain[..i], chain[i].modifier, chain[i].generated) {
      PlainModifier(index, chain, i);
      if i == 0 {
        GenesisComputed(p, index);
        assert chain[..0] == [];
      } else {
        PlainPrefix(index, chain, i);
        PlainComputed(p, index, chain[..i]);
        RipePrefix(p, chain, i);
      }
    }
  }

  lemma PlainModifier(index: map<nat, Block>, chain: seq<Block>, i: nat)
    requires Plain(index, chain) && i < |chain|
    ensures chain[i].modifier == 0
  {
  }

  lemma GenesisComputed(p: Params, index: map<nat, Block>)
    requires p.interval > 0
    ensures Computed(p, index, [], 0, true)
  {
  }

  function Sample(i: nat, time: nat, generated: bool): (b: Block)
  {
    Block(i, time, false, false, generated, 0, 0)
  }

  function InsertedTime(x: nat, q: seq<nat>): (r: seq<nat>)
    ensures |r| == |q| + 1
  {
    if q == [] || x <= q[0] then [x] + q else [q[0]] + InsertedTime(x, q[1..])
  }

  function SortedTimes(chain: seq<Block>): (r: seq<nat>)
    ensures |r| == |chain|
  {
    if chain == [] then [] else InsertedTime(chain[|chain| - 1].time, SortedTimes(chain[..|chain| - 1]))
  }

  /** `GetMedianTimePast`: the median of the times of the last eleven blocks. */
  function MedianTimePast(chain: seq<Block>): (t: nat)
    requires chain != []
  {
    var recent := if |chain| <= 11 then chain else chain[|chain| - 11..];
    SortedTimes(recent)[|recent| / 2]
  }

  /** The rules of `AcceptBlock` on the time of a block on top of `chain`: after the median, and at most ten
      minutes before its parent. */
  predicate TimeAccepted(chain: seq<Block>, time: nat)
  {
    chain != [] ==> MedianTimePast(chain) < time && chain[|chain| - 1].time <= time + FUTURE_DRIFT
  }

  ghost predicate AllAccepted(chain: seq<Block>)
  {
    forall i :: 0 <= i < |chain| ==> TimeAccepted(chain[..i], chain[i].time)
  }

  /** Times that `AcceptBlock` takes keep the drift. */
  lemma AcceptedDrift(chain: seq<Block>)
    requires AllAccepted(chain)
    ensures DriftKept(chain)
  {
    hide MedianTimePast;
    forall j | 0 < j < |chain| ensures chain[j - 1].time <= chain[j].time + FUTURE_DRIFT {
      assert TimeAccepted(chain[..j], chain[j].time);
      assert chain[..j][j - 1] == chain[j - 1];
    }
  }

  lemma {:induction false} InsertedLast(x: nat, q: seq<nat>)
    requires forall i :: 0 <= i < |q| ==> q[i] < x
    ensures InsertedTime(x, q) == q + [x]
  {
    if q != [] {
      InsertedLast(x, q[1..]);
      assert q == [q[0]] + q[1..];
    }
  }

  lemma {:induction false} AscendingSorted(chain: seq<Block>)
    requires forall i, j :: 0 <= i < j < |chain| ==> chain[i].time < chain[j].time
    ensures forall i :: 0 <= i < |chain| ==> SortedTimes(chain)[i] == chain[i].time
  {
    if chain != [] {
      var last := |chain| - 1;
      AscendingSorted(chain[..last]);
      InsertedLast(chain[last].time, SortedTimes(chain[..last]));
    }
  }

  /** Times that increase up to the last block, which comes after the middle one and at most ten minutes before
      its parent. */
  lemma AcceptedAlmostAscending(chain: seq<Block>)
    requires 0 < |chain| <= 11 && var last := |chain| - 1;
      && (forall i, j :: 0 <= i < j < last ==> chain[i].time < chain[j].time)
      && (last > 0 ==> chain[last / 2].time < chain[last].time)
      && (last > 0 ==> chain[last - 1].time <= chain[last].time + FUTURE_DRIFT)
    ensures AllAccepted(chain)
  {
    hide SortedTimes;
    forall i | 0 < i < |chain| ensures TimeAccepted(chain[..i], chain[i].time) {
      var before := chain[..i];
      assert forall k :: 0 <= k < i ==> before[k] == chain[k];
      AscendingSorted(before);
      assert MedianTimePast(before) == chain[i / 2].time;
    }
  }

  /** Blocks at `base`, 100, 1250 and 1100 seconds after it, the last one behind its parent. */
  function Fallback(base: nat): (chain: seq<Block>)
  {
    [Sample(0, base, true), Sample(1, base + 100, false), Sample(2, base + 1250, false), Sample(3, base + 1100, true)]
  }

  lemma FallbackAccepted(base: nat)
    ensures AllAccepted(Fallback(base))
  {
    AcceptedAlmostAscending(Fallback(base));
  }

  lemma FallbackIntervals(p: Params, base: nat)
    requires p.interval == 20 * 60 && base % (20 * 60) == 0
    ensures var c, k := Fallback(base), base / (20 * 60);
      && IntervalOf(p, c[0].time) == IntervalOf(p, c[1].time) == IntervalOf(p, c[3].time) == k
      && IntervalOf(p, c[2].time) == k + 1
  {
    var k := base / (20 * 60);
    Arith.DivModUnique(base + 100, 20 * 60, k, 100);
    Arith.DivModUnique(base + 1250, 20 * 60, k + 1, 50);
    Arith.DivModUnique(base + 1100, 20 * 60, k, 1100);
  }

  lemma FallbackGenerations(base: nat)
    ensures var c := Fallback(base); LastGenerated(c, 0) == LastGenerated(c, 1) == LastGenerated(c, 2) == 0
  {
  }

  lemma FallbackPlain(index: map<nat, Block>, chain: seq<Block>, base: nat)
    requires chain == Fallback(base)
    requires index == map[0 := chain[0], 1 := chain[1], 2 := chain[2], 3 := chain[3]]
    ensures Plain(index, chain)
  {
  }

  /** With the interval of the main network, any selection hash and times `AcceptBlock` takes, the first and the
      last of four blocks both generate in the same interval, because the last one falls back behind its parent. */
  lemma FallingBackSharesInterval(p: Params, index: map<nat, Block>, chain: seq<Block>, base: nat)
    requires p.interval == 20 * 60 && base % (20 * 60) == 0 && chain == Fallback(base)
    requires index == map[0 := chain[0], 1 := chain[1], 2 := chain[2], 3 := chain[3]]
    ensures Indexed(index, chain) && WellGenerated(p, index, chain) && AllAccepted(chain)
    ensures !NoneShared(p, chain)
  {
    hide AllAccepted, WellGenerated, LastGenerated, IntervalOf, Indexed;
    FallbackAccepted(base);
    FallbackPlain(index, chain, base);
    FallbackIntervals(p, base);
    FallbackGenerations(base);
    PlainGenerated(p, index, chain);
  }

  /** Blocks at 40, 41, 140, 290, 370 and 160 seconds after `base`. */
  function Skipping(base: nat): (chain: seq<Block>)
  {
    [Sample(0, base + 40, true), Sample(1, base + 41, false), Sample(2, base + 140, false),
     Sample(3, base + 290, true), Sample(4, base + 370, false), Sample(5, base + 160, true)]
  }

  lemma SkippingIntervals(p: Params, base: nat)
    requires p.interval == 120 && base % 120 == 0
    ensures var c, k := Skipping(base), base / 120;
      && IntervalOf(p, c[0].time) == IntervalOf(p, c[1].time) == k
      && IntervalOf(p, c[2].time) == IntervalOf(p, c[5].time) == k + 1
      && IntervalOf(p, c[3].time) == k + 2 && IntervalOf(p, c[4].time) == k + 3
  {
    var k := base / 120;
    Arith.DivModUnique(base + 40, 120, k, 40);
    Arith.DivModUnique(base + 41, 120, k, 41);
    Arith.DivModUnique(base + 140, 120, k + 1, 20);
    Arith.DivModUnique(base + 290, 120, k + 2, 50);
    Arith.DivModUnique(base + 370, 120, k + 3, 10);
    Arith.DivModUnique(base + 160, 120, k + 1, 40);
  }

  lemma SkippingGenerations(base: nat)
    ensures var c := Skipping(base);
      && LastGenerated(c, 0) == LastGenerated(c, 1) == LastGenerated(c, 2) == 0
      && LastGenerated(c, 3) == LastGenerated(c, 4) == 3
  {
  }

  lemma SkippingPlain(index: map<nat, Block>, chain: seq<Block>, base: nat)
    requires chain == Skipping(base)
    requires index == map[0 := chain[0], 1 := chain[1], 2 := chain[2], 3 := chain[3], 4 := chain[4], 5 := chain[5]]
    ensures Plain(index, chain) && AllAccepted(chain)
  {
    AcceptedAlmostAscending(chain);
    hide AllAccepted;
  }

  /** On the test network an interval is shorter than the drift, so a block can fall back behind the interval its
      parent left into one that was passed over: then no two generating blocks share an interval all the same. */
  lemma FallingBackBetween(p: Params, index: map<nat, Block>, chain: seq<Block>, base: nat)
    requires p.interval == 120 && base % 120 == 0 && chain == Skipping(base)
    requires index == map[0 := chain[0], 1 := chain[1], 2 := chain[2], 3 := chain[3], 4 := chain[4], 5 := chain[5]]
    ensures Indexed(index, chain) && WellGenerated(p, index, chain) && AllAccepted(chain)
    ensures NoneShared(p, chain) && !BlocksFollow(p, chain)
  {
    hide AllAccepted, WellGenerated, LastGenerated, IntervalOf, Indexed;
    SkippingPlain(index, chain, base);
    SkippingIntervals(p, base);
    SkippingGenerations(base);
    PlainGenerated(p, index, chain);
    assert ParentLeft(p, chain, 5);
  }
}
