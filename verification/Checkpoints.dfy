/** Synchronized checkpoints (src/checkpoints.cpp) over the growing tree of known blocks, with the
    strict admission of blocks (src/main.cpp). */
module Checkpoints {

  /** An entry of `mapBlockIndex`: the hash of the previous block (0 for none) and the height. */
  datatype Node = Node(prev: nat, height: nat)

  type Index = map<nat, Node>

  /** The global state: the block index and the three checkpoint hashes, 0 standing for none. */
  datatype State = State(index: Index, sync: nat, pending: nat, invalid: nat)

  /** What the outside answers while a checkpoint is being accepted: whether the block is in the main
      chain already, whether it can be read, made the best chain, written to the database and committed. */
  datatype Outcome = Outcome(inMainChain: bool, readable: bool, bestChain: bool, written: bool, committed: bool)

  /** How far a block in sync gets: refused by the remaining checks or the disk, entered in the index although the
      commit or the change of the best chain fails afterwards, or accepted altogether. */
  datatype Storing = Refused | OnlyIndexed | Accepted

  // ---------------------------------------------------------------- the tree of blocks

  ghost predicate Tree(index: Index)
  {
    && 0 !in index
    && forall h :: h in index ==>
         && (index[h].height == 0 <==> index[h].prev == 0)
         && (index[h].prev != 0 ==> index[h].prev in index && index[index[h].prev].height + 1 == index[h].height)
  }

  /** The ancestor of `h`, or `h` itself, at height `n`. */
  ghost function At(index: Index, h: nat, n: nat): (a: nat)
    requires Tree(index) && h in index && n <= index[h].height
    ensures a in index && index[a].height == n
    decreases index[h].height
  {
    if index[h].height == n then h else At(index, index[h].prev, n)
  }

  /** `b` is `a` or one of its descendants. */
  ghost predicate Descends(index: Index, a: nat, b: nat)
    requires Tree(index)
  {
    a in index && b in index && index[a].height <= index[b].height && At(index, b, index[a].height) == a
  }

  ghost predicate StrictlyDescends(index: Index, a: nat, b: nat)
    requires Tree(index)
  {
    Descends(index, a, b) && a != b
  }

  /** Neither of the two blocks is on the branch of the other. */
  ghost predicate Conflicting(index: Index, a: nat, b: nat)
    requires Tree(index)
  {
    a in index && b in index && !Descends(index, a, b) && !Descends(index, b, a)
  }

  lemma {:induction false} AtAt(index: Index, h: nat, n: nat, m: nat)
    requires Tree(index) && h in index && m <= n <= index[h].height
    ensures At(index, At(index, h, n), m) == At(index, h, m)
    decreases index[h].height
  {
    if index[h].height != n {
      AtAt(index, index[h].prev, n, m);
    }
  }

  lemma DescendsTransitive(index: Index, a: nat, b: nat, c: nat)
    requires Tree(index) && Descends(index, a, b) && Descends(index, b, c)
    ensures Descends(index, a, c)
  {
    AtAt(index, c, index[b].height, index[a].height);
  }

  lemma {:induction false} AtGrows(index: Index, index': Index, h: nat, n: nat)
    requires Tree(index) && Tree(index') && (forall x :: x in index ==> x in index' && index'[x] == index[x])
    requires h in index && n <= index[h].height
    ensures At(index', h, n) == At(index, h, n)
    decreases index[h].height
  {
    if index[h].height != n {
      AtGrows(index, index', index[h].prev, n);
    }
  }

  ghost predicate Extends(index: Index, index': Index)
  {
    forall x :: x in index ==> x in index' && index'[x] == index[x]
  }

  lemma DescendsGrows(index: Index, index': Index, a: nat, b: nat)
    requires Tree(index) && Tree(index') && Extends(index, index')
    requires a in index && b in index
    ensures Descends(index', a, b) <==> Descends(index, a, b)
  {
    if index[a].height <= index[b].height {
      AtGrows(index, index', b, index[a].height);
    }
  }

  // ---------------------------------------------------------------- specifications

  ghost predicate Good(s: State)
  {
    Tree(s.index) && s.sync in s.index
  }

  /** `ValidateSyncCheckpoint` accepts exactly the strict descendants of the current checkpoint. */
  ghost predicate Accepts(s: State, h: nat)
    requires Tree(s.index)
  {
    StrictlyDescends(s.index, s.sync, h)
  }

  /** The state after validating `h`: a block on a conflicting branch is remembered as invalid. */
  ghost function Validated(s: State, h: nat): (r: State)
    requires Tree(s.index)
  {
    if Conflicting(s.index, s.sync, h) then s.(invalid := h) else s
  }

  /** Making `h`, already validated, the checkpoint, as far as the outside allows. */
  function Adopted(s: State, h: nat, o: Outcome): (r: (bool, State))
  {
    if !o.inMainChain && !o.readable then (false, s)
    else if !o.inMainChain && !o.bestChain then (false, s.(invalid := h))
    else if !o.written || !o.committed then (false, s)
    else (true, s.(sync := h, pending := 0))
  }

  /** `ProcessSyncCheckpoint`, once the signature is verified. */
  ghost function Processed(s: State, h: nat, o: Outcome): (r: (bool, State))
    requires Tree(s.index)
  {
    if h !in s.index then (false, s.(pending := h))
    else if !Accepts(s, h) then (false, Validated(s, h))
    else Adopted(s, h, o)
  }

  ghost function PendingAccepted(s: State, o: Outcome): (r: (bool, State))
    requires Tree(s.index)
  {
    if s.pending == 0 || s.pending !in s.index then (false, s)
    else if !Accepts(s, s.pending) then (false, Validated(s, s.pending).(pending := 0))
    else Adopted(s, s.pending, o)
  }

  /** `CheckSync` for a block `h` on top of the known block `prev`. */
  ghost predicate InSync(s: State, h: nat, prev: nat)
    requires Good(s) && prev in s.index
  {
    var height := s.index[prev].height + 1;
    var top := s.index[s.sync].height;
    if height > top then Descends(s.index, s.sync, prev)
    else if height == top then h == s.sync
    else h in s.index
  }

  /** The state with block `h` on top of `prev` in the index. */
  function Grown(s: State, h: nat, prev: nat): (r: State)
    requires prev in s.index
  {
    s.(index := s.index[h := Node(prev, s.index[prev].height + 1)])
  }

  /** `AcceptBlock` in strict mode: a new block enters the index only when it is in sync, and a pending
      checkpoint is tried once the block is accepted altogether. */
  ghost function Admitted(s: State, h: nat, prev: nat, stored: Storing, o: Outcome): (r: (bool, State))
    requires Good(s) && h != 0
  {
    if h in s.index || prev !in s.index then (false, s)
    else if !InSync(s, h, prev) || stored == Refused then (false, s)
    else if stored == OnlyIndexed then (false, Grown(s, h, prev))
    else
      GrownTree(s, h, prev);
      (true, PendingAccepted(Grown(s, h, prev), o).1)
  }

  lemma GrownTree(s: State, h: nat, prev: nat)
    requires Tree(s.index) && prev in s.index && h !in s.index && h != 0
    ensures var r := Grown(s, h, prev);
      && Tree(r.index) && Extends(s.index, r.index) && r.sync == s.sync
      && h in r.index && r.index[h] == Node(prev, s.index[prev].height + 1)
  {
  }

  lemma GrownKeys(s: State, h: nat, prev: nat)
    requires prev in s.index
    ensures forall x :: x in Grown(s, h, prev).index <==> x in s.index || x == h
  {
  }

  // ---------------------------------------------------------------- the methods

  class SyncCheckpoints {
    var mapBlockIndex: Index
    var hashSyncCheckpoint: nat
    var hashPendingCheckpoint: nat
    var hashInvalidCheckpoint: nat

    ghost function Abs(): State
      reads this
    {
      State(mapBlockIndex, hashSyncCheckpoint, hashPendingCheckpoint, hashInvalidCheckpoint)
    }

    /** Walks back from `h` to height `n`. */
    method TraceBack(h: nat, n: nat) returns (a: nat)
      requires Tree(mapBlockIndex) && h in mapBlockIndex && n <= mapBlockIndex[h].height
      ensures a == At(mapBlockIndex, h, n)
    {
      a := h;
      while mapBlockIndex[a].height > n
        invariant a in mapBlockIndex && n <= mapBlockIndex[a].height
        invariant At(mapBlockIndex, a, n) == At(mapBlockIndex, h, n)
        decreases mapBlockIndex[a].height
      {
        assert mapBlockIndex[a].prev != 0;
        a := mapBlockIndex[a].prev;
      }
    }

    method ValidateSyncCheckpoint(h: nat) returns (ok: bool)
      requires Tree(mapBlockIndex)
      modifies `hashInvalidCheckpoint
      ensures ok == old(Accepts(Abs(), h))
      ensures Abs() == old(Validated(Abs(), h))
    {
      if hashSyncCheckpoint !in mapBlockIndex {
        return false;
      }
      if h !in mapBlockIndex {
        return false;
      }
      var syncHeight := mapBlockIndex[hashSyncCheckpoint].height;
      if mapBlockIndex[h].height <= syncHeight {
        var a := TraceBack(hashSyncCheckpoint, mapBlockIndex[h].height);
        if a != h {
          hashInvalidCheckpoint := h;
          return false;
        }
        return false;
      }
      var a := TraceBack(h, syncHeight);
      if a != hashSyncCheckpoint {
        hashInvalidCheckpoint := h;
        return false;
      }
      return true;
    }

    method WriteSyncCheckpoint(h: nat, written: bool, committed: bool) returns (ok: bool)
      modifies `hashSyncCheckpoint
      ensures ok == (written && committed)
      ensures Abs() == if ok then old(Abs()).(sync := h) else old(Abs())
    {
      if !written {
        return false;
      }
      if !committed {
        return false;
      }
      hashSyncCheckpoint := h;
      return true;
    }

    method ProcessSyncCheckpoint(h: nat, signed: bool, o: Outcome) returns (ok: bool)
      requires Tree(mapBlockIndex)
      modifies `hashSyncCheckpoint, `hashPendingCheckpoint, `hashInvalidCheckpoint
      ensures (ok, Abs()) == if signed then old(Processed(Abs(), h, o)) else (false, old(Abs()))
    {
      if !signed {
        return false;
      }
      if h !in mapBlockIndex {
        hashPendingCheckpoint := h;
        return false;
      }
      var valid := ValidateSyncCheckpoint(h);
      if !valid {
        return false;
      }
      if !o.inMainChain {
        if !o.readable {
          return false;
        }
        if !o.bestChain {
          hashInvalidCheckpoint := h;
          return false;
        }
      }
      var written := WriteSyncCheckpoint(h, o.written, o.committed);
      if !written {
        return false;
      }
      hashPendingCheckpoint := 0;
      return true;
    }

    method AcceptPendingSyncCheckpoint(o: Outcome) returns (ok: bool)
      requires Tree(mapBlockIndex)
      modifies `hashSyncCheckpoint, `hashPendingCheckpoint, `hashInvalidCheckpoint
      ensures (ok, Abs()) == old(PendingAccepted(Abs(), o))
    {
      if hashPendingCheckpoint != 0 && hashPendingCheckpoint in mapBlockIndex {
        var valid := ValidateSyncCheckpoint(hashPendingCheckpoint);
        if !valid {
          hashPendingCheckpoint := 0;
          return false;
        }
        if !o.inMainChain {
          if !o.readable {
            return false;
          }
          if !o.bestChain {
            hashInvalidCheckpoint := hashPendingCheckpoint;
            return false;
          }
        }
        var written := WriteSyncCheckpoint(hashPendingCheckpoint, o.written, o.committed);
        if !written {
          return false;
        }
        hashPendingCheckpoint := 0;
        return true;
      }
      return false;
    }

    method CheckSync(h: nat, prev: nat) returns (ok: bool)
      requires Good(Abs()) && prev in mapBlockIndex
      ensures ok == InSync(Abs(), h, prev)
    {
      var height := mapBlockIndex[prev].height + 1;
      var top := mapBlockIndex[hashSyncCheckpoint].height;
      if height > top {
        var a := TraceBack(prev, top);
        if mapBlockIndex[a].height < top || a != hashSyncCheckpoint {
          return false;
        }
      }
      if height == top && h != hashSyncCheckpoint {
        return false;
      }
      if height < top && h !in mapBlockIndex {
        return false;
      }
      return true;
    }

    method AddToBlockIndex(h: nat, prev: nat)
      requires prev in mapBlockIndex
      modifies `mapBlockIndex
      ensures Abs() == Grown(old(Abs()), h, prev)
    {
      mapBlockIndex := mapBlockIndex[h := Node(prev, mapBlockIndex[prev].height + 1)];
    }

    method AcceptBlock(h: nat, prev: nat, stored: Storing, o: Outcome) returns (ok: bool)
      requires Good(Abs()) && h != 0
      modifies this
      ensures (ok, Abs()) == old(Admitted(Abs(), h, prev, stored, o))
    {
      hide Tree, InSync, PendingAccepted, Extends, Grown;
      ghost var s := Abs();
      if h in mapBlockIndex {
        return false;
      }
      if prev !in mapBlockIndex {
        return false;
      }
      var inSync := CheckSync(h, prev);
      if !inSync {
        return false;
      }
      if stored == Refused {
        return false;
      }
      GrownTree(s, h, prev);
      AddToBlockIndex(h, prev);
      if stored == OnlyIndexed {
        return false;
      }
      var accepted := AcceptPendingSyncCheckpoint(o);
      return true;
    }
  }

  // ---------------------------------------------------------------- runs

  datatype Op =
    | Message(h: nat, signed: bool, o: Outcome)
    | TryPending(o: Outcome)
    | NewBlock(h: nat, prev: nat, stored: Storing, o: Outcome)

  ghost predicate Allowed(op: Op)
  {
    op.NewBlock? ==> op.h != 0
  }

  ghost function Step(s: State, op: Op): (r: State)
    requires Good(s) && Allowed(op)
  {
    match op
    case Message(h, signed, o) => if signed then Processed(s, h, o).1 else s
    case TryPending(o) => PendingAccepted(s, o).1
    case NewBlock(h, prev, stored, o) => Admitted(s, h, prev, stored, o).1
  }

  /** Accepting a message or a pending checkpoint: the tree stays, and the checkpoint moves at most to a strict
      descendant. */
  ghost predicate MovesForward(s: State, r: State)
    requires Good(s)
  {
    r.index == s.index && (r.sync == s.sync || StrictlyDescends(s.index, s.sync, r.sync))
  }

  lemma ProcessedForward(s: State, h: nat, o: Outcome)
    requires Good(s)
    ensures MovesForward(s, Processed(s, h, o).1)
  {
  }

  lemma PendingForward(s: State, o: Outcome)
    requires Good(s)
    ensures MovesForward(s, PendingAccepted(s, o).1)
  {
  }

  /** What a single step keeps: the tree only grows, and the checkpoint only descends. */
  ghost predicate Advances(s: State, r: State)
  {
    && Good(s) && Good(r) && Extends(s.index, r.index)
    && Descends(r.index, s.sync, r.sync)
    && (forall h :: h in r.index && h !in s.index ==> StrictlyDescends(r.index, s.sync, h))
  }

  lemma ForwardAdvances(s: State, r: State)
    requires Good(s) && MovesForward(s, r)
    ensures Advances(s, r)
  {
  }

  lemma InSyncNewDescends(s: State, h: nat, prev: nat)
    requires Good(s) && prev in s.index && h !in s.index && h != 0 && InSync(s, h, prev)
    ensures Tree(Grown(s, h, prev).index) && StrictlyDescends(Grown(s, h, prev).index, s.sync, h)
  {
    hide Tree, Grown, At;
    GrownTree(s, h, prev);
    var index' := Grown(s, h, prev).index;
    DescendsGrows(s.index, index', s.sync, prev);
    AtParent(index', h, s.index[s.sync].height);
  }

  lemma AtParent(index: Index, h: nat, n: nat)
    requires Tree(index) && h in index && n < index[h].height
    ensures index[h].prev in index && n <= index[index[h].prev].height && At(index, h, n) == At(index, index[h].prev, n)
  {
  }

  lemma AdmittedAdvances(s: State, h: nat, prev: nat, stored: Storing, o: Outcome)
    requires Good(s) && h != 0
    ensures Advances(s, Admitted(s, h, prev, stored, o).1)
  {
    hide Tree, InSync, PendingAccepted, Grown, Advances;
    SelfAdvances(s);
    if h !in s.index && prev in s.index && InSync(s, h, prev) && stored != Refused {
      GrownAdvances(s, h, prev);
      if stored == Accepted {
        GrownTree(s, h, prev);
        GrownPending(s, Grown(s, h, prev), o);
      }
    }
  }

  lemma GrownPending(s: State, r: State, o: Outcome)
    requires Advances(s, r)
    ensures Good(r) && Advances(s, PendingAccepted(r, o).1)
  {
    hide Tree, PendingAccepted, MovesForward, Descends;
    PendingForward(r, o);
    AdvancesTransitive(s, r, PendingAccepted(r, o).1);
  }

  lemma SelfAdvances(s: State)
    requires Good(s)
    ensures Advances(s, s)
  {
  }

  lemma GrownAdvances(s: State, h: nat, prev: nat)
    requires Good(s) && prev in s.index && h !in s.index && h != 0 && InSync(s, h, prev)
    ensures Advances(s, Grown(s, h, prev))
  {
    hide Tree, InSync, Descends, StrictlyDescends, Extends, Advances, Grown;
    InSyncNewDescends(s, h, prev);
    GrownTree(s, h, prev);
    GrownKeys(s, h, prev);
    OneBlockAdvances(s, Grown(s, h, prev), h);
  }

  lemma OneBlockAdvances(s: State, r: State, h: nat)
    requires Good(s) && Tree(r.index) && r.sync == s.sync && h !in s.index
    requires forall x :: x in r.index <==> x in s.index || x == h
    requires Extends(s.index, r.index) && StrictlyDescends(r.index, s.sync, h)
    ensures Advances(s, r)
  {
    hide Tree;
    SelfDescends(r.index, s.sync);
  }

  lemma SelfDescends(index: Index, h: nat)
    requires Tree(index) && h in index
    ensures Descends(index, h, h)
  {
  }

  /** Composing with a step that leaves the tree alone. */
  lemma AdvancesTransitive(s: State, r: State, t: State)
    requires Advances(s, r) && MovesForward(r, t)
    ensures Advances(s, t)
  {
    if t.sync != r.sync {
      DescendsTransitive(r.index, s.sync, r.sync, t.sync);
    }
  }

  lemma StepAdvances(s: State, op: Op)
    requires Good(s) && Allowed(op)
    ensures Advances(s, Step(s, op))
  {
    hide Tree, Processed, PendingAccepted, Admitted, MovesForward, Advances;
    match op
    case Message(h, signed, o) =>
      if signed {
        ProcessedForward(s, h, o);
        ForwardAdvances(s, Processed(s, h, o).1);
      } else {
        SelfAdvances(s);
      }
    case TryPending(o) =>
      PendingForward(s, o);
      ForwardAdvances(s, PendingAccepted(s, o).1);
    case NewBlock(h, prev, stored, o) => AdmittedAdvances(s, h, prev, stored, o);
  }

  ghost predicate Run(states: seq<State>, ops: seq<Op>)
  {
    && |states| == |ops| + 1
    && Good(states[0])
    && (forall i :: 0 <= i < |ops| ==> Allowed(ops[i]))
    && forall i :: 0 <= i < |ops| ==> Good(states[i]) ==> states[i + 1] == Step(states[i], ops[i])
  }

  lemma {:induction false} RunGood(states: seq<State>, ops: seq<Op>, i: nat)
    requires Run(states, ops) && i < |states|
    ensures Good(states[i])
  {
    hide Good, Step;
    if i > 0 {
      RunGood(states, ops, i - 1);
      StepAdvances(states[i - 1], ops[i - 1]);
      AdvancesGood(states[i - 1], states[i]);
    }
  }

  lemma AdvancesGood(s: State, r: State)
    requires Advances(s, r)
    ensures Good(r)
  {
  }

  /** Over any run every earlier checkpoint is an ancestor of every later one, in a tree that only grows. */
  lemma {:induction false} CheckpointsDescend(states: seq<State>, ops: seq<Op>, i: nat, j: nat)
    requires Run(states, ops) && i <= j < |states|
    ensures Good(states[i]) && Good(states[j]) && Extends(states[i].index, states[j].index)
    ensures Descends(states[j].index, states[i].sync, states[j].sync)
  {
    hide Step, Tree;
    RunGood(states, ops, i);
    RunGood(states, ops, j);
    if i == j {
      SelfAdvances(states[i]);
    } else {
      CheckpointsDescend(states, ops, i, j - 1);
      StepAdvances(states[j - 1], ops[j - 1]);
      DescendsGrows(states[j - 1].index, states[j].index, states[i].sync, states[j - 1].sync);
      DescendsTransitive(states[j].index, states[i].sync, states[j - 1].sync, states[j].sync);
    }
  }

  /** Every block admitted at step `j` strictly descends from every checkpoint up to then. */
  lemma AdmittedDescendFromAll(states: seq<State>, ops: seq<Op>, i: nat, j: nat, h: nat)
    requires Run(states, ops) && i <= j < |ops|
    requires h in states[j + 1].index && h !in states[j].index
    ensures Good(states[j + 1]) && StrictlyDescends(states[j + 1].index, states[i].sync, h)
  {
    hide Step, Tree, At;
    CheckpointsDescend(states, ops, i, j);
    RunGood(states, ops, j + 1);
    StepAdvances(states[j], ops[j]);
    DescendsGrows(states[j].index, states[j + 1].index, states[i].sync, states[j].sync);
    DescendsTransitive(states[j + 1].index, states[i].sync, states[j].sync, h);
  }

  /** A step changes the checkpoint only to a strict descendant. */
  lemma CheckpointChangesStrictly(s: State, op: Op)
    requires Good(s) && Allowed(op) && Step(s, op).sync != s.sync
    ensures Good(Step(s, op)) && StrictlyDescends(Step(s, op).index, s.sync, Step(s, op).sync)
  {
    hide Step, Tree;
    StepAdvances(s, op);
  }
}
