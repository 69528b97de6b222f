/** The parallel check queue (src/checkqueue.h) as a state machine: every critical section under the
    mutex is one step, every check run outside it is another, and any number of workers interleave
    with the one master. */
module CheckQueue {

  type Check = nat

  /** Parameters of a queue: the batch size, the shutdown flag, and what each check returns. */
  datatype Config = Config(batchSize: nat, quit: bool, passes: Check -> bool)

  /** Where a thread is: outside `Loop`, blocked on its condition variable (`woken` once notified), or
      working outside the lock through a batch of which `done` are dealt with. */
  datatype Thread =
    | Outside
    | Asleep(woken: bool)
    | Busy(done: seq<Check>, todo: seq<Check>, ok: bool)

  /** The fields of `CCheckQueue` with all threads, thread 0 being the master, and the history of the
      round: what was added since the last `Wait` returned, and what became of it. */
  datatype State = State(
    queue: seq<Check>,
    nIdle: int,
    nTotal: int,
    allOk: bool,
    nTodo: int,
    threads: seq<Thread>,
    added: multiset<Check>,
    finished: multiset<Check>,
    ran: multiset<Check>,
    skipped: multiset<Check>)

  const MASTER := 0

  datatype Step =
    | Add(checks: seq<Check>, notified: set<int>)
    | Enter(t: int)
    | RunOne(t: int)
    | Finish(t: int)
    | Wake(t: int)
    | Spurious(t: int)

  function Min(x: int, y: int): (m: int)
  {
    if x < y then x else y
  }

  function Max(x: int, y: int): (m: int)
  {
    if x < y then y else x
  }

  /** How many checks a thread takes at once. */
  function BatchOf(cfg: Config, s: State): (n: int)
    requires |s.queue| > 0 && s.nTotal + s.nIdle >= 0
    ensures 1 <= n <= |s.queue|
  {
    DivBound(|s.queue|, s.nTotal + s.nIdle + 1);
    Max(1, Min(cfg.batchSize, |s.queue| / (s.nTotal + s.nIdle + 1)))
  }

  lemma DivBound(n: nat, d: int)
    requires d >= 1
    ensures 0 <= n / d <= n
  {
  }

  /** The last `n` elements of the queue, last first. */
  function Popped(queue: seq<Check>, n: int): (batch: seq<Check>)
    requires 0 <= n <= |queue|
    ensures |batch| == n && multiset(queue) == multiset(queue[..|queue| - n]) + multiset(batch)
  {
    if n == 0 then (assert queue[..|queue|] == queue; []) else
      var rest := queue[..|queue| - 1];
      assert queue == rest + [queue[|queue| - 1]];
      assert rest[..|rest| - (n - 1)] == queue[..|queue| - n];
      [queue[|queue| - 1]] + Popped(rest, n - 1)
  }

  function WithThread(s: State, t: int, x: Thread): (r: State)
    requires 0 <= t < |s.threads|
  {
    s.(threads := s.threads[t := x])
  }

  /** From the head of the inner `while` to the next release of the lock: take a batch, return, or wait. */
  function Proceed(cfg: Config, s: State, t: int): (r: State)
    requires 0 <= t < |s.threads| && s.nTotal + s.nIdle >= 0
    ensures |r.threads| == |s.threads|
  {
    if |s.queue| > 0 then
      var n := BatchOf(cfg, s);
      WithThread(s.(queue := s.queue[..|s.queue| - n]), t, Busy([], Popped(s.queue, n), s.allOk))
    else if (t == MASTER || cfg.quit) && s.nTodo == 0 then
      Leave(s, t)
    else
      WithThread(s.(nIdle := s.nIdle + 1), t, Asleep(false))
  }

  /** Returning from `Loop`; the master resets the status, and a new round begins. */
  function Leave(s: State, t: int): (r: State)
    requires 0 <= t < |s.threads|
  {
    var left := WithThread(s.(nTotal := s.nTotal - 1), t, Outside);
    if t == MASTER
    then left.(allOk := true, added := multiset{}, finished := multiset{}, ran := multiset{}, skipped := multiset{})
    else left
  }

  /** The clean-up after a batch, before the thread proceeds. */
  function CleanUp(s: State, t: int): (r: State)
    requires 0 <= t < |s.threads| && s.threads[t].Busy?
    ensures |r.threads| == |s.threads| && r.nTotal == s.nTotal && r.nIdle == s.nIdle && r.queue == s.queue
  {
    var b := s.threads[t];
    var r := s.(allOk := s.allOk && b.ok, nTodo := s.nTodo - |b.done|, finished := s.finished + multiset(b.done));
    if r.nTodo == 0 && t != MASTER && s.threads[MASTER].Asleep?
    then r.(threads := r.threads[MASTER := Asleep(true)])
    else r
  }

  /** The workers a call of `Add` may have notified: one of the un-notified sleepers for a single
      check, all of them for more. */
  ghost predicate MayNotify(s: State, checks: seq<Check>, notified: set<int>)
  {
    var sleepers := set t | 0 < t < |s.threads| && s.threads[t] == Asleep(false);
    if |checks| == 0 then notified == {}
    else if |checks| > 1 then notified == sleepers
    else notified <= sleepers && |notified| <= 1 && (sleepers != {} ==> notified != {})
  }

  function Notify(threads: seq<Thread>, notified: set<int>): (r: seq<Thread>)
    ensures |r| == |threads|
    ensures forall t :: 0 <= t < |r| ==>
      r[t] == if t in notified && threads[t].Asleep? then Asleep(true) else threads[t]
  {
    seq(|threads|, t requires 0 <= t < |threads| =>
      if t in notified && threads[t].Asleep? then Asleep(true) else threads[t])
  }

  ghost predicate Enabled(s: State, step: Step)
  {
    match step
    case Add(checks, notified) => |s.threads| > 0 && s.threads[MASTER].Outside? && MayNotify(s, checks, notified)
    case Enter(t) => 0 <= t < |s.threads| && s.threads[t].Outside?
    case RunOne(t) => 0 <= t < |s.threads| && s.threads[t].Busy? && s.threads[t].todo != []
    case Finish(t) => 0 <= t < |s.threads| && s.threads[t].Busy? && s.threads[t].todo == []
    case Wake(t) => 0 <= t < |s.threads| && s.threads[t] == Asleep(true)
    case Spurious(t) => 0 <= t < |s.threads| && s.threads[t] == Asleep(false)
  }

  /** One check of a batch: run only while everything this thread knows of has passed. */
  function OneCheck(cfg: Config, s: State, t: int): (r: State)
    requires 0 <= t < |s.threads| && s.threads[t].Busy? && s.threads[t].todo != []
  {
    var b := s.threads[t];
    var c := b.todo[0];
    var moved := WithThread(s, t, Busy(b.done + [c], b.todo[1..], b.ok && cfg.passes(c)));
    if b.ok then moved.(ran := s.ran + multiset{c}) else moved.(skipped := s.skipped + multiset{c})
  }

  ghost function Next(cfg: Config, s: State, step: Step): (r: State)
    requires Enabled(s, step) && s.nTotal >= 0 && s.nIdle >= 0 && (step.Wake? ==> s.nIdle > 0)
    ensures |r.threads| == |s.threads|
  {
    match step
    case Add(checks, notified) =>
      s.(queue := s.queue + checks, nTodo := s.nTodo + |checks|, added := s.added + multiset(checks),
         threads := Notify(s.threads, notified))
    case Enter(t) => Proceed(cfg, s.(nTotal := s.nTotal + 1), t)
    case RunOne(t) => OneCheck(cfg, s, t)
    case Finish(t) => Proceed(cfg, CleanUp(s, t), t)
    case Wake(t) => Proceed(cfg, s.(nIdle := s.nIdle - 1), t)
    case Spurious(t) => WithThread(s, t, Asleep(true))
  }

  // ---------------------------------------------------------------- sums over the threads

  ghost function Sum(threads: seq<Thread>, f: Thread -> int): (n: int)
  {
    if threads == [] then 0 else Sum(threads[..|threads| - 1], f) + f(threads[|threads| - 1])
  }

  ghost function Collect(threads: seq<Thread>, f: Thread -> multiset<Check>): (m: multiset<Check>)
  {
    if threads == [] then multiset{} else Collect(threads[..|threads| - 1], f) + f(threads[|threads| - 1])
  }

  lemma {:induction false} SumUpdate(threads: seq<Thread>, f: Thread -> int, t: int, x: Thread)
    requires 0 <= t < |threads|
    ensures Sum(threads[t := x], f) == Sum(threads, f) - f(threads[t]) + f(x)
  {
    var last := |threads| - 1;
    if t == last {
      assert threads[t := x][..last] == threads[..last];
    } else {
      assert threads[t := x][..last] == threads[..last][t := x];
      SumUpdate(threads[..last], f, t, x);
    }
  }

  lemma {:induction false} CollectUpdate(threads: seq<Thread>, f: Thread -> multiset<Check>, t: int, x: Thread)
    requires 0 <= t < |threads|
    ensures Collect(threads[t := x], f) + f(threads[t]) == Collect(threads, f) + f(x)
  {
    var last := |threads| - 1;
    if t == last {
      assert threads[t := x][..last] == threads[..last];
    } else {
      var before := threads[..last];
      assert threads[t := x][..last] == before[t := x];
      CollectUpdate(before, f, t, x);
      calc {
        Collect(threads[t := x], f) + f(threads[t]);
        (Collect(before[t := x], f) + f(threads[t])) + f(threads[last]);
        (Collect(before, f) + f(x)) + f(threads[last]);
        Collect(threads, f) + f(x);
      }
    }
  }

  lemma {:induction false} SumSame(threads: seq<Thread>, threads': seq<Thread>, f: Thread -> int)
    requires |threads| == |threads'| && forall t :: 0 <= t < |threads| ==> f(threads[t]) == f(threads'[t])
    ensures Sum(threads, f) == Sum(threads', f)
  {
    if threads != [] {
      SumSame(threads[..|threads| - 1], threads'[..|threads| - 1], f);
    }
  }

  lemma {:induction false} CollectSame(threads: seq<Thread>, threads': seq<Thread>, f: Thread -> multiset<Check>)
    requires |threads| == |threads'| && forall t :: 0 <= t < |threads| ==> f(threads[t]) == f(threads'[t])
    ensures Collect(threads, f) == Collect(threads', f)
  {
    if threads != [] {
      CollectSame(threads[..|threads| - 1], threads'[..|threads| - 1], f);
    }
  }

  function NowOf(x: Thread): int { if x.Busy? then |x.done| + |x.todo| else 0 }
  function InsideOf(x: Thread): int { if x.Outside? then 0 else 1 }
  function AsleepOf(x: Thread): int { if x.Asleep? then 1 else 0 }
  function BatchIn(x: Thread): multiset<Check> { if x.Busy? then multiset(x.done) + multiset(x.todo) else multiset{} }
  function DoneIn(x: Thread): multiset<Check> { if x.Busy? then multiset(x.done) else multiset{} }

  // ---------------------------------------------------------------- the invariant

  /** Some check of this round was run and did not pass. */
  ghost predicate Failed(cfg: Config, s: State)
  {
    exists c :: c in s.ran && !cfg.passes(c)
  }

  /** Some thread has seen a failure, in the shared status or in its own. */
  ghost predicate Noticed(s: State)
  {
    !s.allOk || exists t :: 0 <= t < |s.threads| && s.threads[t].Busy? && !s.threads[t].ok
  }

  /** `nTodo` and the counters are exact. */
  ghost predicate Counts(s: State)
  {
    && s.nTodo == |s.queue| + Sum(s.threads, NowOf)
    && s.nTotal == Sum(s.threads, InsideOf)
    && s.nIdle == Sum(s.threads, AsleepOf)
  }

  /** Every check added is in the queue, in one batch, or finished; every check dealt with was run or skipped once. */
  ghost predicate Conserved(s: State)
  {
    && s.added == multiset(s.queue) + Collect(s.threads, BatchIn) + s.finished
    && s.ran + s.skipped == s.finished + Collect(s.threads, DoneIn)
  }

  /** Failures are noticed exactly, and checks are skipped only after one. */
  ghost predicate Verdicts(cfg: Config, s: State)
  {
    && (Failed(cfg, s) <==> Noticed(s))
    && (s.skipped != multiset{} ==> Failed(cfg, s))
  }

  /** No wakeup of the master is lost: asleep and not notified, it has nothing to take and someone to wait for. */
  ghost predicate MasterSafe(s: State)
  {
    && |s.threads| > 0
    && (s.threads[MASTER].Asleep? ==> s.queue == [])
    && (s.threads[MASTER] == Asleep(false) ==> s.nTodo > 0)
    && (forall t :: 0 <= t < |s.threads| && s.threads[t].Busy? ==> |s.threads[t].done| + |s.threads[t].todo| > 0)
  }

  ghost predicate Inv(cfg: Config, s: State)
  {
    Counts(s) && Conserved(s) && Verdicts(cfg, s) && MasterSafe(s)
  }

  lemma {:induction false} SumBounds(threads: seq<Thread>)
    ensures 0 <= Sum(threads, AsleepOf) <= Sum(threads, InsideOf) && 0 <= Sum(threads, NowOf)
  {
    if threads != [] {
      SumBounds(threads[..|threads| - 1]);
    }
  }

  lemma {:induction false} SumAsleep(threads: seq<Thread>, t: int)
    requires 0 <= t < |threads| && threads[t].Asleep?
    ensures Sum(threads, AsleepOf) > 0
  {
    var last := |threads| - 1;
    SumBounds(threads[..last]);
    if t < last {
      SumAsleep(threads[..last], t);
    }
  }

  lemma Defined(cfg: Config, s: State, step: Step)
    requires Inv(cfg, s) && Enabled(s, step)
    ensures s.nTotal >= 0 && s.nIdle >= 0 && (step.Wake? ==> s.nIdle > 0)
  {
    SumBounds(s.threads);
    if step.Wake? {
      SumAsleep(s.threads, step.t);
    }
  }

  // ---------------------------------------------------------------- every step keeps it: counters

  lemma ThreadCounts(s: State, t: int, x: Thread)
    requires 0 <= t < |s.threads|
    ensures var ts := s.threads[t := x];
      && Sum(ts, NowOf) == Sum(s.threads, NowOf) - NowOf(s.threads[t]) + NowOf(x)
      && Sum(ts, InsideOf) == Sum(s.threads, InsideOf) - InsideOf(s.threads[t]) + InsideOf(x)
      && Sum(ts, AsleepOf) == Sum(s.threads, AsleepOf) - AsleepOf(s.threads[t]) + AsleepOf(x)
  {
    SumUpdate(s.threads, NowOf, t, x);
    SumUpdate(s.threads, InsideOf, t, x);
    SumUpdate(s.threads, AsleepOf, t, x);
  }

  /** The counters when thread `t` holds the lock: it is inside, neither asleep nor with a batch. */
  ghost predicate CountsWithout(s: State, t: int)
  {
    && 0 <= t < |s.threads|
    && s.nTodo == |s.queue| + Sum(s.threads, NowOf) - NowOf(s.threads[t])
    && s.nTotal == Sum(s.threads, InsideOf) - InsideOf(s.threads[t]) + 1
    && s.nIdle == Sum(s.threads, AsleepOf) - AsleepOf(s.threads[t])
  }

  lemma ProceedCounts(cfg: Config, s: State, t: int)
    requires CountsWithout(s, t) && s.nTotal + s.nIdle >= 0
    ensures Counts(Proceed(cfg, s, t))
  {
    hide Sum, Popped, BatchOf;
    if |s.queue| > 0 {
      ThreadCounts(s, t, Busy([], Popped(s.queue, BatchOf(cfg, s)), s.allOk));
    } else if (t == MASTER || cfg.quit) && s.nTodo == 0 {
      ThreadCounts(s, t, Outside);
    } else {
      ThreadCounts(s, t, Asleep(false));
    }
  }

  lemma CleanUpCounts(s: State, t: int)
    requires Counts(s) && 0 <= t < |s.threads| && s.threads[t].Busy? && s.threads[t].todo == []
    ensures CountsWithout(CleanUp(s, t), t) && CleanUp(s, t).threads[t] == s.threads[t]
  {
    hide Sum;
    ThreadCounts(s, MASTER, Asleep(true));
  }

  lemma NotifyCounts(s: State, notified: set<int>)
    ensures var ts := Notify(s.threads, notified);
      Sum(ts, NowOf) == Sum(s.threads, NowOf) && Sum(ts, InsideOf) == Sum(s.threads, InsideOf) &&
        Sum(ts, AsleepOf) == Sum(s.threads, AsleepOf)
  {
    hide Sum;
    var ts := Notify(s.threads, notified);
    SumSame(ts, s.threads, NowOf);
    SumSame(ts, s.threads, InsideOf);
    SumSame(ts, s.threads, AsleepOf);
  }

  lemma NextCounts(cfg: Config, s: State, step: Step)
    requires Counts(s) && Enabled(s, step) && s.nTotal >= 0 && s.nIdle >= 0 && (step.Wake? ==> s.nIdle > 0)
    ensures Counts(Next(cfg, s, step))
  {
    hide Sum, Proceed, CleanUp, MayNotify;
    match step
    case Add(checks, notified) => NotifyCounts(s, notified);
    case Enter(t) => ProceedCounts(cfg, s.(nTotal := s.nTotal + 1), t);
    case RunOne(t) => ThreadCounts(s, t, Next(cfg, s, step).threads[t]);
    case Finish(t) =>
      CleanUpCounts(s, t);
      ProceedCounts(cfg, CleanUp(s, t), t);
    case Wake(t) => ProceedCounts(cfg, s.(nIdle := s.nIdle - 1), t);
    case Spurious(t) => ThreadCounts(s, t, Asleep(true));
  }

  // ---------------------------------------------------------------- every step keeps it: conservation

  /** Conservation when thread `t` holds the lock without a batch. */
  ghost predicate ConservedWithout(s: State, t: int)
  {
    && 0 <= t < |s.threads|
    && s.added + BatchIn(s.threads[t]) == multiset(s.queue) + Collect(s.threads, BatchIn) + s.finished
    && s.ran + s.skipped + DoneIn(s.threads[t]) == s.finished + Collect(s.threads, DoneIn)
  }

  lemma ThreadConserved(s: State, t: int, x: Thread)
    requires ConservedWithout(s, t)
    ensures var ts := s.threads[t := x];
      && s.added + BatchIn(x) == multiset(s.queue) + Collect(ts, BatchIn) + s.finished
      && s.ran + s.skipped + DoneIn(x) == s.finished + Collect(ts, DoneIn)
  {
    hide Collect, BatchIn, DoneIn;
    CollectUpdate(s.threads, BatchIn, t, x);
    CollectUpdate(s.threads, DoneIn, t, x);
    Rearrange(s.added, multiset(s.queue) + s.finished, BatchIn(s.threads[t]), Collect(s.threads, BatchIn), BatchIn(x),
      Collect(s.threads[t := x], BatchIn));
    Rearrange(s.ran + s.skipped, s.finished, DoneIn(s.threads[t]), Collect(s.threads, DoneIn), DoneIn(x),
      Collect(s.threads[t := x], DoneIn));
  }

  lemma Rearrange(a: multiset<Check>, b: multiset<Check>, old': multiset<Check>, c: multiset<Check>,
      x: multiset<Check>, c': multiset<Check>)
    requires a + old' == b + c && c' + old' == c + x
    ensures a + x == b + c'
  {
    forall i: Check ensures (a + x)[i] == (b + c')[i] {
      assert (a + old')[i] == (b + c)[i] && (c' + old')[i] == (c + x)[i];
    }
    assert forall i: Check :: (a + x)[i] == (b + c')[i];
  }

  lemma {:induction false} NothingHeld(threads: seq<Thread>)
    requires Sum(threads, NowOf) == 0
    ensures Collect(threads, BatchIn) == multiset{} && Collect(threads, DoneIn) == multiset{}
  {
    if threads != [] {
      SumBounds(threads[..|threads| - 1]);
      NothingHeld(threads[..|threads| - 1]);
    }
  }

  lemma ProceedConserved(cfg: Config, s: State, t: int)
    requires ConservedWithout(s, t) && CountsWithout(s, t) && s.nTotal + s.nIdle >= 0
    ensures Conserved(Proceed(cfg, s, t))
  {
    hide Sum, Collect, Popped, BatchOf, Leave;
    if |s.queue| > 0 {
      TakeConserved(cfg, s, t);
    } else if (t == MASTER || cfg.quit) && s.nTodo == 0 {
      LeaveConserved(s, t);
    } else {
      ThreadConserved(s, t, Asleep(false));
    }
  }

  lemma LeaveConserved(s: State, t: int)
    requires ConservedWithout(s, t) && CountsWithout(s, t) && s.queue == [] && s.nTodo == 0
    ensures Conserved(Leave(s, t))
  {
    hide Sum, Collect;
    ThreadConserved(s, t, Outside);
    ThreadCounts(s, t, Outside);
    NothingHeld(s.threads[t := Outside]);
  }

  lemma TakeConserved(cfg: Config, s: State, t: int)
    requires 0 <= t < |s.threads| && s.nTotal + s.nIdle >= 0 && |s.queue| > 0
    requires ConservedWithout(s, t)
    ensures Conserved(Proceed(cfg, s, t))
  {
    hide Sum, Collect, Popped, BatchOf;
    var n := BatchOf(cfg, s);
    var batch := Popped(s.queue, n);
    var x := Busy([], batch, s.allOk);
    ThreadConserved(s, t, x);
    var r := Proceed(cfg, s, t);
    assert BatchIn(x) == multiset(batch);
    var rest := multiset(s.queue[..|s.queue| - n]);
    Cancel(s.added, multiset(batch), rest + Collect(r.threads, BatchIn) + s.finished);
  }

  lemma Cancel(a: multiset<Check>, x: multiset<Check>, b: multiset<Check>)
    requires a + x == b + x
    ensures a == b
  {
    forall i: Check ensures a[i] == b[i] {
      assert (a + x)[i] == (b + x)[i];
    }
  }

  /** Being notified changes no batch. */
  lemma WokenCollect(threads: seq<Thread>, t: int)
    requires 0 <= t < |threads| && threads[t].Asleep?
    ensures Collect(threads[t := Asleep(true)], BatchIn) == Collect(threads, BatchIn)
    ensures Collect(threads[t := Asleep(true)], DoneIn) == Collect(threads, DoneIn)
  {
    CollectSame(threads[t := Asleep(true)], threads, BatchIn);
    CollectSame(threads[t := Asleep(true)], threads, DoneIn);
  }

  lemma CleanUpConserved(s: State, t: int)
    requires Conserved(s) && 0 <= t < |s.threads| && s.threads[t].Busy? && s.threads[t].todo == []
    ensures ConservedWithout(CleanUp(s, t), t)
  {
    hide Collect;
    var b := s.threads[t];
    var r := CleanUp(s, t);
    var done := multiset(b.done);
    assert BatchIn(b) == done;
    if s.threads[MASTER].Asleep? {
      WokenCollect(s.threads, MASTER);
    }
    assert r.threads[t] == b;
    assert s.added + done == (multiset(s.queue) + Collect(s.threads, BatchIn)) + (s.finished + done);
    assert s.ran + s.skipped + done == (s.finished + done) + Collect(s.threads, DoneIn);
  }

  lemma RunCollect(threads: seq<Thread>, t: int, x: Thread, c: Check)
    requires 0 <= t < |threads| && threads[t].Busy? && threads[t].todo != [] && c == threads[t].todo[0]
    requires x.Busy? && x.done == threads[t].done + [c] && x.todo == threads[t].todo[1..]
    ensures Collect(threads[t := x], BatchIn) == Collect(threads, BatchIn)
    ensures Collect(threads[t := x], DoneIn) == Collect(threads, DoneIn) + multiset{c}
  {
    hide Collect;
    var b := threads[t];
    assert b.todo == [c] + b.todo[1..];
    assert BatchIn(x) == BatchIn(b);
    assert DoneIn(x) == DoneIn(b) + multiset{c};
    CollectUpdate(threads, BatchIn, t, x);
    CollectUpdate(threads, DoneIn, t, x);
    Cancel(Collect(threads[t := x], BatchIn), BatchIn(b), Collect(threads, BatchIn));
    assert Collect(threads[t := x], DoneIn) + DoneIn(b) == (Collect(threads, DoneIn) + multiset{c}) + DoneIn(b);
    Cancel(Collect(threads[t := x], DoneIn), DoneIn(b), Collect(threads, DoneIn) + multiset{c});
  }

  lemma RunConserved(cfg: Config, s: State, t: int)
    requires Conserved(s) && 0 <= t < |s.threads| && s.threads[t].Busy? && s.threads[t].todo != []
    ensures Conserved(OneCheck(cfg, s, t))
  {
    hide Collect, BatchIn, DoneIn;
    var r := OneCheck(cfg, s, t);
    var c := s.threads[t].todo[0];
    RunCollect(s.threads, t, r.threads[t], c);
    assert r.threads == s.threads[t := r.threads[t]];
    assert r.ran + r.skipped == s.ran + s.skipped + multiset{c};
    assert (s.finished + Collect(s.threads, DoneIn)) + multiset{c} ==
      s.finished + (Collect(s.threads, DoneIn) + multiset{c});
  }

  lemma AddConserved(s: State, checks: seq<Check>, notified: set<int>)
    requires Conserved(s)
    ensures var ts := Notify(s.threads, notified);
      && s.added + multiset(checks) == multiset(s.queue + checks) + Collect(ts, BatchIn) + s.finished
      && s.ran + s.skipped == s.finished + Collect(ts, DoneIn)
  {
    hide Collect;
    var ts := Notify(s.threads, notified);
    CollectSame(ts, s.threads, BatchIn);
    CollectSame(ts, s.threads, DoneIn);
    assert multiset(s.queue + checks) == multiset(s.queue) + multiset(checks);
  }

  lemma NextConserved(cfg: Config, s: State, step: Step)
    requires Counts(s) && Conserved(s) && Enabled(s, step)
    requires s.nTotal >= 0 && s.nIdle >= 0 && (step.Wake? ==> s.nIdle > 0)
    ensures Conserved(Next(cfg, s, step))
  {
    hide Sum, Collect, Proceed, CleanUp, OneCheck, MayNotify;
    match step
    case Add(checks, notified) => AddConserved(s, checks, notified);
    case Enter(t) => ProceedConserved(cfg, s.(nTotal := s.nTotal + 1), t);
    case RunOne(t) => RunConserved(cfg, s, t);
    case Finish(t) =>
      CleanUpCounts(s, t);
      CleanUpConserved(s, t);
      ProceedConserved(cfg, CleanUp(s, t), t);
    case Wake(t) => ProceedConserved(cfg, s.(nIdle := s.nIdle - 1), t);
    case Spurious(t) =>
      WokenCollect(s.threads, t);
  }

  // ---------------------------------------------------------------- every step keeps it: verdicts

  ghost predicate NoticedWithout(s: State, t: int)
  {
    !s.allOk || exists u :: 0 <= u < |s.threads| && u != t && s.threads[u].Busy? && !s.threads[u].ok
  }

  ghost predicate VerdictsWithout(cfg: Config, s: State, t: int)
  {
    && (Failed(cfg, s) <==> NoticedWithout(s, t))
    && (s.skipped != multiset{} ==> Failed(cfg, s))
  }

  lemma {:induction false} NobodyBusy(threads: seq<Thread>)
    requires Sum(threads, NowOf) == 0
    ensures forall t :: 0 <= t < |threads| && threads[t].Busy? ==> |threads[t].done| + |threads[t].todo| == 0
  {
    if threads != [] {
      SumBounds(threads[..|threads| - 1]);
      NobodyBusy(threads[..|threads| - 1]);
    }
  }

  ghost predicate BatchesFilled(s: State)
  {
    forall t :: 0 <= t < |s.threads| && s.threads[t].Busy? ==> |s.threads[t].done| + |s.threads[t].todo| > 0
  }

  lemma ProceedVerdicts(cfg: Config, s: State, t: int)
    requires CountsWithout(s, t) && s.nTotal + s.nIdle >= 0 && BatchesFilled(s) && VerdictsWithout(cfg, s, t)
    ensures Verdicts(cfg, Proceed(cfg, s, t))
  {
    hide Sum, Popped, BatchOf;
    var r := Proceed(cfg, s, t);
    assert forall u :: 0 <= u < |s.threads| && u != t ==> r.threads[u] == s.threads[u];
    if |s.queue| > 0 {
      assert Noticed(r) <==> NoticedWithout(s, t);
    } else if t == MASTER && s.nTodo == 0 {
      ThreadCounts(s, t, Outside);
      NobodyBusy(r.threads);
    } else {
      assert Noticed(r) <==> NoticedWithout(s, t);
    }
  }

  lemma CleanUpVerdicts(cfg: Config, s: State, t: int)
    requires Verdicts(cfg, s) && 0 <= t < |s.threads| && s.threads[t].Busy?
    ensures VerdictsWithout(cfg, CleanUp(s, t), t)
  {
    var r := CleanUp(s, t);
    assert forall u :: 0 <= u < |s.threads| && s.threads[u].Busy? ==> r.threads[u] == s.threads[u];
    assert forall u :: 0 <= u < |s.threads| && r.threads[u].Busy? ==> r.threads[u] == s.threads[u];
    assert NoticedWithout(r, t) <==> Noticed(s);
  }

  lemma RunVerdicts(cfg: Config, s: State, t: int)
    requires Verdicts(cfg, s) && 0 <= t < |s.threads| && s.threads[t].Busy? && s.threads[t].todo != []
    ensures Verdicts(cfg, OneCheck(cfg, s, t))
  {
    var r := OneCheck(cfg, s, t);
    var b := s.threads[t];
    var c := b.todo[0];
    assert forall u :: 0 <= u < |s.threads| && u != t ==> r.threads[u] == s.threads[u];
    if b.ok && !cfg.passes(c) {
      assert c in r.ran && !r.threads[t].ok;
    } else {
      SameRan(cfg, s, t);
      assert r.threads[t].Busy? && r.threads[t].ok == b.ok;
      assert Noticed(r) <==> Noticed(s);
    }
  }

  /** A check that passes, or is skipped, leaves the failed ones as they were. */
  lemma SameRan(cfg: Config, s: State, t: int)
    requires 0 <= t < |s.threads| && s.threads[t].Busy? && s.threads[t].todo != []
    requires !s.threads[t].ok || cfg.passes(s.threads[t].todo[0])
    ensures Failed(cfg, OneCheck(cfg, s, t)) <==> Failed(cfg, s)
  {
    var r := OneCheck(cfg, s, t);
    forall x
      ensures x in r.ran && !cfg.passes(x) <==> x in s.ran && !cfg.passes(x)
    {
    }
  }

  lemma NextVerdicts(cfg: Config, s: State, step: Step)
    requires Counts(s) && Verdicts(cfg, s) && BatchesFilled(s) && Enabled(s, step)
    requires s.nTotal >= 0 && s.nIdle >= 0 && (step.Wake? ==> s.nIdle > 0)
    ensures Verdicts(cfg, Next(cfg, s, step))
  {
    hide Sum, Proceed, CleanUp, OneCheck, MayNotify;
    match step
    case Add(checks, notified) =>
      assert Noticed(Next(cfg, s, step)) <==> Noticed(s);
    case Enter(t) =>
      assert NoticedWithout(s, t) <==> Noticed(s);
      ProceedVerdicts(cfg, s.(nTotal := s.nTotal + 1), t);
    case RunOne(t) => RunVerdicts(cfg, s, t);
    case Finish(t) =>
      CleanUpCounts(s, t);
      CleanUpVerdicts(cfg, s, t);
      CleanUpFilled(s, t);
      ProceedVerdicts(cfg, CleanUp(s, t), t);
    case Wake(t) =>
      assert NoticedWithout(s, t) <==> Noticed(s);
      ProceedVerdicts(cfg, s.(nIdle := s.nIdle - 1), t);
    case Spurious(t) =>
      var r := Next(cfg, s, step);
      assert forall u :: 0 <= u < |s.threads| && u != t ==> r.threads[u] == s.threads[u];
      assert Noticed(r) <==> Noticed(s);
  }

  lemma CleanUpFilled(s: State, t: int)
    requires BatchesFilled(s) && 0 <= t < |s.threads| && s.threads[t].Busy?
    ensures BatchesFilled(CleanUp(s, t))
  {
  }

  // ---------------------------------------------------------------- every step keeps it: wakeups

  ghost predicate SafeWithout(s: State, t: int)
  {
    && 0 <= t < |s.threads| && BatchesFilled(s)
    && (t != MASTER && s.threads[MASTER].Asleep? ==> s.queue == [])
    && (t != MASTER && s.threads[MASTER] == Asleep(false) ==> s.nTodo > 0)
  }

  lemma ProceedSafe(cfg: Config, s: State, t: int)
    requires SafeWithout(s, t) && CountsWithout(s, t) && s.nTotal + s.nIdle >= 0
    ensures MasterSafe(Proceed(cfg, s, t))
  {
    hide Sum, Popped, BatchOf;
    var r := Proceed(cfg, s, t);
    ThreadCounts(s, t, Outside);
    SumBounds(s.threads[t := Outside]);
    assert s.nTodo >= 0;
    assert forall u :: 0 <= u < |s.threads| && u != t ==> r.threads[u] == s.threads[u];
  }

  lemma CleanUpSafe(s: State, t: int)
    requires MasterSafe(s) && Counts(s) && 0 <= t < |s.threads| && s.threads[t].Busy? && s.threads[t].todo == []
    ensures SafeWithout(CleanUp(s, t), t)
  {
    hide Sum;
    ThreadCounts(s, t, Outside);
    SumBounds(s.threads[t := Outside]);
    assert s.nTodo - |s.threads[t].done| >= 0;
  }

  lemma NotifyFilled(s: State, notified: set<int>)
    requires BatchesFilled(s)
    ensures BatchesFilled(s.(threads := Notify(s.threads, notified)))
  {
  }

  lemma RunSafe(cfg: Config, s: State, t: int)
    requires MasterSafe(s) && 0 <= t < |s.threads| && s.threads[t].Busy? && s.threads[t].todo != []
    ensures MasterSafe(OneCheck(cfg, s, t))
  {
  }

  lemma NextSafe(cfg: Config, s: State, step: Step)
    requires Counts(s) && MasterSafe(s) && Enabled(s, step)
    requires s.nTotal >= 0 && s.nIdle >= 0 && (step.Wake? ==> s.nIdle > 0)
    ensures MasterSafe(Next(cfg, s, step))
  {
    hide Sum, Proceed, CleanUp, MayNotify, Notify, OneCheck;
    match step
    case Add(checks, notified) =>
      assert BatchesFilled(Next(cfg, s, step)) by { NotifyFilled(s, notified); }
    case Enter(t) => ProceedSafe(cfg, s.(nTotal := s.nTotal + 1), t);
    case RunOne(t) => RunSafe(cfg, s, t);
    case Finish(t) =>
      CleanUpCounts(s, t);
      CleanUpSafe(s, t);
      ProceedSafe(cfg, CleanUp(s, t), t);
    case Wake(t) => ProceedSafe(cfg, s.(nIdle := s.nIdle - 1), t);
    case Spurious(t) =>
  }

  lemma NextInv(cfg: Config, s: State, step: Step)
    requires Inv(cfg, s) && Enabled(s, step) && s.nTotal >= 0 && s.nIdle >= 0 && (step.Wake? ==> s.nIdle > 0)
    ensures Inv(cfg, Next(cfg, s, step))
  {
    hide Counts, Conserved, Verdicts, Enabled, Next;
    NextCounts(cfg, s, step);
    NextConserved(cfg, s, step);
    NextVerdicts(cfg, s, step);
    NextSafe(cfg, s, step);
  }

  // ---------------------------------------------------------------- runs

  /** The queue just constructed, with `n` threads none of which has called it yet. */
  function Initial(n: nat): (s: State)
  {
    State([], 0, 0, true, 0, seq(n + 1, _ => Outside), multiset{}, multiset{}, multiset{}, multiset{})
  }

  lemma {:induction false} OutsideSums(n: nat)
    ensures var ts := seq(n, _ => Outside);
      && Sum(ts, NowOf) == 0 && Sum(ts, InsideOf) == 0 && Sum(ts, AsleepOf) == 0
      && Collect(ts, BatchIn) == multiset{} && Collect(ts, DoneIn) == multiset{}
  {
    if n > 0 {
      OutsideSums(n - 1);
      assert seq(n, _ => Outside)[..n - 1] == seq(n - 1, _ => Outside);
    }
  }

  lemma InitialInv(cfg: Config, n: nat)
    ensures Inv(cfg, Initial(n))
  {
    OutsideSums(n + 1);
  }

  /** A step is taken: it is enabled, and leads from `s` to `r`. */
  ghost predicate Takes(cfg: Config, s: State, step: Step, r: State)
  {
    && Enabled(s, step)
    && (s.nTotal >= 0 && s.nIdle >= 0 && (step.Wake? ==> s.nIdle > 0) ==> r == Next(cfg, s, step))
  }

  ghost predicate Run(cfg: Config, states: seq<State>, steps: seq<Step>)
  {
    && |states| == |steps| + 1
    && forall i :: 0 <= i < |steps| ==> Takes(cfg, states[i], steps[i], states[i + 1])
  }

  /** The invariant holds in every state of every run, for any number of workers and any interleaving. */
  lemma {:induction false} RunInv(cfg: Config, n: nat, states: seq<State>, steps: seq<Step>, i: nat)
    requires Run(cfg, states, steps) && i < |states| && states[0] == Initial(n)
    ensures Inv(cfg, states[i])
  {
    hide Inv, Enabled, Next, Initial;
    if i == 0 {
      InitialInv(cfg, n);
    } else {
      RunInv(cfg, n, states, steps, i - 1);
      assert Takes(cfg, states[i - 1], steps[i - 1], states[i]);
      Defined(cfg, states[i - 1], steps[i - 1]);
      NextInv(cfg, states[i - 1], steps[i - 1]);
    }
  }

  // ---------------------------------------------------------------- what the invariant says

  function BusyOf(x: Thread): int { if x.Busy? then 1 else 0 }

  lemma {:induction false} InsideSplit(threads: seq<Thread>)
    ensures Sum(threads, InsideOf) == Sum(threads, AsleepOf) + Sum(threads, BusyOf)
  {
    if threads != [] {
      InsideSplit(threads[..|threads| - 1]);
    }
  }

  lemma {:induction false} DoneWithinBatch(threads: seq<Thread>)
    ensures Collect(threads, DoneIn) <= Collect(threads, BatchIn)
  {
    if threads != [] {
      DoneWithinBatch(threads[..|threads| - 1]);
    }
  }

  /** At every release of the lock `nTotal - nIdle` threads hold a batch, and no check has run more often than
      it was added. */
  lemma InvFacts(cfg: Config, s: State)
    requires Inv(cfg, s)
    ensures s.nTotal - s.nIdle == Sum(s.threads, BusyOf)
    ensures s.ran <= s.added
  {
    hide Sum, Collect;
    InsideSplit(s.threads);
    DoneWithinBatch(s.threads);
    forall c ensures s.ran[c] <= s.added[c] {
      assert (s.ran + s.skipped)[c] == (s.finished + Collect(s.threads, DoneIn))[c];
      assert Collect(s.threads, DoneIn)[c] <= Collect(s.threads, BatchIn)[c];
    }
  }

  /** With all checks distinct, none runs twice. */
  lemma AtMostOnce(cfg: Config, s: State, c: Check)
    requires Inv(cfg, s) && s.added[c] <= 1
    ensures s.ran[c] <= 1
  {
    InvFacts(cfg, s);
  }

  lemma {:induction false} SomeoneBusy(threads: seq<Thread>)
    requires Sum(threads, NowOf) > 0
    ensures exists t :: 0 <= t < |threads| && threads[t].Busy?
  {
    var last := |threads| - 1;
    if !threads[last].Busy? {
      SomeoneBusy(threads[..last]);
      var t :| 0 <= t < last && threads[..last][t].Busy?;
      assert threads[t].Busy?;
    }
  }

  /** No lost wakeup: while the master is blocked and not notified, the queue is empty and a worker holds
      unfinished checks. */
  lemma BlockedMasterHasWorker(cfg: Config, s: State)
    requires Inv(cfg, s) && s.threads[MASTER] == Asleep(false)
    ensures s.queue == [] && s.nTodo > 0
    ensures exists t :: 0 < t < |s.threads| && s.threads[t].Busy?
  {
    hide Sum;
    SomeoneBusy(s.threads);
  }

  /** No deadlock: while the master is inside `Wait`, some thread can take a step of its own. */
  lemma NoDeadlock(cfg: Config, s: State)
    requires Inv(cfg, s) && !s.threads[MASTER].Outside?
    ensures exists t :: 0 <= t < |s.threads| && (Enabled(s, RunOne(t)) || Enabled(s, Finish(t)) || Enabled(s, Wake(t)))
  {
    if s.threads[MASTER] == Asleep(false) {
      BlockedMasterHasWorker(cfg, s);
      var t :| 0 < t < |s.threads| && s.threads[t].Busy?;
      assert Enabled(s, RunOne(t)) || Enabled(s, Finish(t));
    } else {
      assert Enabled(s, RunOne(MASTER)) || Enabled(s, Finish(MASTER)) || Enabled(s, Wake(MASTER));
    }
  }

  /** Between rounds the assertions of the controller's constructor hold. */
  lemma ControllerAssertions(cfg: Config, s: State)
    requires Inv(cfg, s) && s.added == multiset{}
    ensures s.nTotal == s.nIdle && s.nTodo == 0 && s.allOk
  {
    hide Sum, Collect;
    InvFacts(cfg, s);
    assert Collect(s.threads, BatchIn) == multiset{};
    NoBatches(s.threads);
    assert |s.queue| == |multiset(s.queue)|;
  }

  lemma EmptyBatch(x: Thread)
    requires BatchIn(x) == multiset{}
    ensures NowOf(x) == 0
  {
    if x.Busy? {
      assert |BatchIn(x)| == |multiset(x.done)| + |multiset(x.todo)|;
    }
  }

  lemma {:induction false} NoBatches(threads: seq<Thread>)
    requires Collect(threads, BatchIn) == multiset{}
    requires forall t :: 0 <= t < |threads| && threads[t].Busy? ==> |threads[t].done| + |threads[t].todo| > 0
    ensures Sum(threads, NowOf) == 0 && Sum(threads, BusyOf) == 0
  {
    if threads != [] {
      var last := |threads| - 1;
      assert Collect(threads[..last], BatchIn) == multiset{} && BatchIn(threads[last]) == multiset{};
      NoBatches(threads[..last]);
      EmptyBatch(threads[last]);
    }
  }

  // ---------------------------------------------------------------- what Wait returns

  /** The state in which a thread has the lock, just before it proceeds. */
  function LockHeld(s: State, step: Step): (m: State)
    requires step.Enter? || step.Finish? || step.Wake?
    requires 0 <= step.t < |s.threads| && (step.Finish? ==> s.threads[step.t].Busy?)
  {
    match step
    case Enter(t) => s.(nTotal := s.nTotal + 1)
    case Finish(t) => CleanUp(s, t)
    case Wake(t) => s.(nIdle := s.nIdle - 1)
  }

  /** The master returns from `Wait` in this step. */
  ghost predicate WaitReturns(s: State, step: Step)
  {
    && Enabled(s, step) && (step.Enter? || step.Finish? || step.Wake?) && step.t == MASTER
    && LockHeld(s, step).queue == [] && LockHeld(s, step).nTodo == 0
  }

  lemma LockHeldFacts(cfg: Config, s: State, step: Step)
    requires Inv(cfg, s) && WaitReturns(s, step)
    ensures var m := LockHeld(s, step);
      && CountsWithout(m, MASTER) && ConservedWithout(m, MASTER) && VerdictsWithout(cfg, m, MASTER) && BatchesFilled(m)
      && m.added == s.added && m.threads[MASTER] == s.threads[MASTER]
  {
    hide Sum, Collect;
    match step
    case Enter(t) => assert NoticedWithout(s, t) <==> Noticed(s);
    case Finish(t) =>
      CleanUpCounts(s, t);
      CleanUpConserved(s, t);
      CleanUpVerdicts(cfg, s, t);
      CleanUpFilled(s, t);
    case Wake(t) => assert NoticedWithout(s, t) <==> Noticed(s);
  }

  /** With nothing left to do, everything added is finished and nobody else is at work. */
  lemma AllFinished(cfg: Config, m: State)
    requires CountsWithout(m, MASTER) && ConservedWithout(m, MASTER) && BatchesFilled(m) && m.queue == [] &&
      m.nTodo == 0
    ensures m.finished == m.added && m.ran + m.skipped == m.added
    ensures forall t :: 0 < t < |m.threads| ==> !m.threads[t].Busy?
    ensures m.nTotal - 1 == m.nIdle >= 0
  {
    hide Sum, Collect;
    var ts := m.threads[MASTER := Outside];
    ThreadCounts(m, MASTER, Outside);
    ThreadConserved(m, MASTER, Outside);
    NothingHeld(ts);
    NobodyBusy(ts);
    Cancel(m.added, multiset{}, m.finished);
    Cancel(m.ran + m.skipped, multiset{}, m.finished);
    forall t | 0 < t < |m.threads| ensures !m.threads[t].Busy? {
      assert ts[t] == m.threads[t];
    }
    InsideSplit(ts);
    NoneBusy(ts);
    SumBounds(ts);
  }

  lemma {:induction false} NoneBusy(threads: seq<Thread>)
    requires forall t :: 0 <= t < |threads| ==> !threads[t].Busy?
    ensures Sum(threads, BusyOf) == 0
  {
    if threads != [] {
      NoneBusy(threads[..|threads| - 1]);
    }
  }

  lemma MasterLeaves(cfg: Config, m: State)
    requires 0 <= MASTER < |m.threads| && m.queue == [] && m.nTodo == 0 && m.nTotal - 1 == m.nIdle >= 0
    ensures var r := Proceed(cfg, m, MASTER);
      r.threads[MASTER].Outside? && r.added == multiset{} && r.allOk && r.nTodo == 0 && r.nTotal == r.nIdle
  {
  }

  /** `Wait` returns true exactly when every check added since the last `Wait` passes, and then each of
      them ran exactly as often as it was added; afterwards the queue is as good as new. */
  lemma WaitVerdict(cfg: Config, s: State, step: Step)
    requires Inv(cfg, s) && WaitReturns(s, step)
    ensures LockHeld(s, step).nTotal + LockHeld(s, step).nIdle >= 0
    ensures var m := LockHeld(s, step);
      && m.added == s.added
      && (m.allOk <==> forall c :: c in s.added ==> cfg.passes(c))
      && (m.allOk ==> m.ran == s.added)
      && var r := Proceed(cfg, m, MASTER);
         r.threads[MASTER].Outside? && r.added == multiset{} && r.allOk && r.nTodo == 0 && r.nTotal == r.nIdle
  {
    hide Sum, Collect, Counts, Conserved, CleanUp, LockHeld, Proceed, Inv;
    LockHeldFacts(cfg, s, step);
    var m := LockHeld(s, step);
    AllFinished(cfg, m);
    MasterLeaves(cfg, m);
    assert m.allOk <==> !NoticedWithout(m, MASTER);
    if m.allOk {
      assert m.skipped == multiset{};
      assert m.ran == m.added;
      forall c | c in s.added ensures cfg.passes(c) {
        assert c in m.ran;
      }
    } else {
      var c :| c in m.ran && !cfg.passes(c);
      assert c in m.ran + m.skipped;
    }
  }

  // ---------------------------------------------------------------- Wait terminates

  /** What a thread may still do before it blocks or leaves for good. */
  function EffortOf(x: Thread): int
  {
    match x
    case Outside => 3
    case Asleep(woken) => if woken then 1 else 0
    case Busy(done, todo, ok) => 2 + |todo|
  }

  ghost function Work(s: State): (n: int)
  {
    3 * |s.queue| + Sum(s.threads, EffortOf)
  }

  lemma {:induction false} EffortNonNegative(threads: seq<Thread>)
    ensures Sum(threads, EffortOf) >= 0
  {
    if threads != [] {
      EffortNonNegative(threads[..|threads| - 1]);
    }
  }

  lemma ProceedWork(cfg: Config, s: State, t: int)
    requires 0 <= t < |s.threads| && s.nTotal + s.nIdle >= 0
    requires !Proceed(cfg, s, t).threads[t].Outside?
    ensures Work(Proceed(cfg, s, t)) <= Work(s) - EffortOf(s.threads[t])
  {
    hide Sum, Popped, BatchOf;
    var r := Proceed(cfg, s, t);
    SumUpdate(s.threads, EffortOf, t, r.threads[t]);
    assert r.threads == s.threads[t := r.threads[t]];
  }

  lemma CleanUpWork(s: State, t: int)
    requires 0 <= t < |s.threads| && s.threads[t].Busy?
    ensures Work(CleanUp(s, t)) <= Work(s) + 1 && CleanUp(s, t).threads[t] == s.threads[t]
  {
    hide Sum;
    SumUpdate(s.threads, EffortOf, MASTER, Asleep(true));
  }

  /** Every step but adding and spurious wakeups uses up work, as long as the thread stays inside. */
  lemma StepUsesWork(cfg: Config, s: State, step: Step)
    requires Inv(cfg, s) && Enabled(s, step) && !step.Add? && !step.Spurious?
    requires s.nTotal >= 0 && s.nIdle >= 0 && (step.Wake? ==> s.nIdle > 0)
    requires !Next(cfg, s, step).threads[step.t].Outside?
    ensures Work(Next(cfg, s, step)) < Work(s)
  {
    hide Sum, Proceed, CleanUp, Counts, Conserved, Verdicts, MasterSafe;
    match step
    case Enter(t) => ProceedWork(cfg, s.(nTotal := s.nTotal + 1), t);
    case RunOne(t) => SumUpdate(s.threads, EffortOf, t, Next(cfg, s, step).threads[t]);
    case Finish(t) =>
      CleanUpWork(s, t);
      ProceedWork(cfg, CleanUp(s, t), t);
    case Wake(t) => ProceedWork(cfg, s.(nIdle := s.nIdle - 1), t);
  }

  /** A stretch of a run during one `Wait` in which nobody leaves and no wakeup is spurious. */
  ghost predicate Waiting(cfg: Config, states: seq<State>, steps: seq<Step>)
  {
    && Run(cfg, states, steps)
    && forall i :: 0 <= i < |steps| ==>
         && !steps[i].Add? && !steps[i].Spurious?
         && 0 <= steps[i].t < |states[i + 1].threads| && !states[i + 1].threads[steps[i].t].Outside?
  }

  /** `Wait` terminates: such a stretch is no longer than the work at its beginning. */
  lemma {:induction false} WaitTerminates(cfg: Config, states: seq<State>, steps: seq<Step>)
    requires Waiting(cfg, states, steps) && Inv(cfg, states[0])
    ensures Inv(cfg, states[|steps|]) && 0 <= Work(states[|steps|]) &&
      |steps| + Work(states[|steps|]) <= Work(states[0])
  {
    hide Inv, Enabled, Next, Work;
    if steps == [] {
      WorkNonNegative(states[0]);
    } else {
      var last := |steps| - 1;
      assert Run(cfg, states[..|steps|], steps[..last]) by {
        forall i | 0 <= i < last ensures Takes(cfg, states[..|steps|][i], steps[..last][i], states[..|steps|][i + 1]) {
          assert Takes(cfg, states[i], steps[i], states[i + 1]);
        }
      }
      WaitTerminates(cfg, states[..|steps|], steps[..last]);
      assert Takes(cfg, states[last], steps[last], states[|steps|]);
      Defined(cfg, states[last], steps[last]);
      StepUsesWork(cfg, states[last], steps[last]);
      NextInv(cfg, states[last], steps[last]);
      WorkNonNegative(states[|steps|]);
    }
  }

  lemma WorkNonNegative(s: State)
    ensures Work(s) >= 0
  {
    EffortNonNegative(s.threads);
  }

  // ---------------------------------------------------------------- Wait returns

  /** A stretch of a run in which nothing is added and no wakeup is spurious. */
  ghost predicate Quiet(cfg: Config, states: seq<State>, steps: seq<Step>)
  {
    Run(cfg, states, steps) && forall i :: 0 <= i < |steps| ==> !steps[i].Add? && !steps[i].Spurious?
  }

  /** A run never gets stuck: something other than adding and spurious wakeups can always happen. */
  lemma NeverStuck(cfg: Config, s: State)
    requires Inv(cfg, s)
    ensures exists step :: Enabled(s, step) && !step.Add? && !step.Spurious?
  {
    hide Counts, Conserved, Verdicts;
    if s.threads[MASTER].Outside? {
      assert Enabled(s, Enter(MASTER));
    } else {
      NoDeadlock(cfg, s);
      var t :| 0 <= t < |s.threads| && (Enabled(s, RunOne(t)) || Enabled(s, Finish(t)) || Enabled(s, Wake(t)));
      var step := if Enabled(s, RunOne(t)) then RunOne(t) else if Enabled(s, Finish(t)) then Finish(t) else Wake(t);
      assert Enabled(s, step);
    }
  }

  lemma ProceedStays(cfg: Config, s: State, t: int)
    requires 0 <= t < |s.threads| && s.nTotal + s.nIdle >= 0 && !cfg.quit
    requires !(t == MASTER && s.queue == [] && s.nTodo == 0)
    ensures !Proceed(cfg, s, t).threads[t].Outside?
    ensures forall i :: 0 <= i < |s.threads| && i != t ==> Proceed(cfg, s, t).threads[i] == s.threads[i]
  {
    hide BatchOf, Popped;
  }

  /** Unless the queue shuts down, only the master leaves, and only by returning from `Wait`. */
  lemma NobodyLeaves(cfg: Config, s: State, step: Step)
    requires Enabled(s, step) && !step.Add? && !step.Spurious? && !cfg.quit && |s.threads| > 0
    requires s.nTotal >= 0 && s.nIdle >= 0 && (step.Wake? ==> s.nIdle > 0)
    requires !WaitReturns(s, step)
    ensures 0 <= step.t < |s.threads| && !Next(cfg, s, step).threads[step.t].Outside?
    ensures !s.threads[MASTER].Outside? ==> !Next(cfg, s, step).threads[MASTER].Outside?
  {
    hide Proceed;
    if !step.RunOne? {
      ProceedStays(cfg, LockHeld(s, step), step.t);
    }
  }

  lemma {:induction false} QuietWaits(cfg: Config, states: seq<State>, steps: seq<Step>)
    requires Quiet(cfg, states, steps) && Inv(cfg, states[0]) && !cfg.quit && !states[0].threads[MASTER].Outside?
    requires forall i :: 0 <= i < |steps| ==> !WaitReturns(states[i], steps[i])
    ensures Waiting(cfg, states, steps) && Inv(cfg, states[|steps|])
    ensures |states[|steps|].threads| > 0 && !states[|steps|].threads[MASTER].Outside?
  {
    hide Counts, Conserved, Verdicts, Enabled, Next, WaitReturns;
    if steps != [] {
      var last := |steps| - 1;
      var before, states' := steps[..last], states[..|steps|];
      forall i | 0 <= i < last
        ensures Takes(cfg, states'[i], before[i], states'[i + 1]) && !WaitReturns(states'[i], before[i])
      {
        assert Takes(cfg, states[i], steps[i], states[i + 1]);
      }
      QuietWaits(cfg, states', before);
      assert Takes(cfg, states[last], steps[last], states[|steps|]);
      Defined(cfg, states[last], steps[last]);
      NobodyLeaves(cfg, states[last], steps[last]);
      NextInv(cfg, states[last], steps[last]);
      forall i | 0 <= i < |steps|
        ensures 0 <= steps[i].t < |states[i + 1].threads| && !states[i + 1].threads[steps[i].t].Outside?
      {
        assert i < last ==> states'[i + 1] == states[i + 1] && before[i] == steps[i];
      }
    }
  }

  /** `Wait` returns: while the master is inside and the queue does not shut down, every quiet stretch longer than
      the work at its beginning has a step in which the master returns, and any shorter one can go on. */
  lemma WaitReturnsEventually(cfg: Config, states: seq<State>, steps: seq<Step>)
    requires Quiet(cfg, states, steps) && Inv(cfg, states[0]) && !cfg.quit && !states[0].threads[MASTER].Outside?
    requires |steps| > Work(states[0])
    ensures exists i :: 0 <= i < |steps| && WaitReturns(states[i], steps[i])
  {
    hide Counts, Conserved, Verdicts, MasterSafe, Enabled, Next, WaitReturns, Work, Waiting;
    if forall i :: 0 <= i < |steps| ==> !WaitReturns(states[i], steps[i]) {
      QuietWaits(cfg, states, steps);
      WaitTerminates(cfg, states, steps);
    }
  }
}
