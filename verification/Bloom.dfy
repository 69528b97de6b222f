/** The Bloom filter (src/bloom.cpp): bits set and tested through hash functions, shortcuts for a full or an empty
    filter, and the transaction test that adds matched outputs. The hash and the serialization of outpoints are
    parameters; a script is given by the data elements read from it. */
module Bloom {
  import opened Bits

  type Key = seq<nat>

  datatype Update = UpdateNone | UpdateAll | UpdatePubKeyOnly

  datatype Params = Params(hash: (nat, Key) -> nat, funcs: nat, update: Update, outpoint: (Key, nat) -> Key)

  /** Bits and shortcut flags. */
  datatype Filter = Filter(data: seq<Byte>, full: bool, empty: bool)

  datatype Out = Out(pushes: seq<Key>, payToKey: bool)

  datatype In = In(prevout: Key, pushes: seq<Key>)

  datatype Tx = Tx(vout: seq<Out>, vin: seq<In>)

  // ---------------------------------------------------------------- bits

  function Mask(k: nat): (m: Byte)
    requires k < 8
  {
    [1, 2, 4, 8, 0x10, 0x20, 0x40, 0x80][k]
  }

  predicate Bit(data: seq<Byte>, n: nat)
    requires n < 8 * |data|
  {
    data[n / 8] & Mask(n % 8) != 0
  }

  function WithBit(data: seq<Byte>, n: nat): (r: seq<Byte>)
    requires n < 8 * |data|
    ensures |r| == |data|
  {
    data[n / 8 := data[n / 8] | Mask(n % 8)]
  }

  lemma MaskBits(b: Byte, j: nat, k: nat)
    requires j < 8 && k < 8
    ensures (b | Mask(k)) & Mask(j) != 0 <==> b & Mask(j) != 0 || j == k
    ensures 0xFF & Mask(j) != 0 && 0 & Mask(j) == 0
  {
  }

  lemma WithBitIs(data: seq<Byte>, n: nat, m: nat)
    requires n < 8 * |data| && m < 8 * |data|
    ensures Bit(WithBit(data, n), m) <==> Bit(data, m) || m == n
  {
    hide Mask;
    if m / 8 == n / 8 {
      MaskBits(data[n / 8], m % 8, n % 8);
      assert m % 8 == n % 8 <==> m == n;
    }
  }

  predicate AllSet(data: seq<Byte>)
  {
    forall i :: 0 <= i < |data| ==> data[i] == 0xFF
  }

  predicate AllClear(data: seq<Byte>)
  {
    forall i :: 0 <= i < |data| ==> data[i] == 0
  }

  lemma FlagBits(data: seq<Byte>, n: nat)
    requires n < 8 * |data|
    ensures AllSet(data) ==> Bit(data, n)
    ensures AllClear(data) ==> !Bit(data, n)
  {
    hide Mask;
    MaskBits(0, n % 8, 0);
  }

  /** No bit of `a` is lost in `b`. */
  ghost predicate Within(a: seq<Byte>, b: seq<Byte>)
  {
    |a| == |b| && forall n: nat :: n < 8 * |a| && Bit(a, n) ==> Bit(b, n)
  }

  // ---------------------------------------------------------------- keys

  /** `Hash`: the bit a hash function assigns to a key. */
  function Slot(p: Params, size: nat, i: nat, key: Key): (n: nat)
    requires size > 0
    ensures n < 8 * size
  {
    p.hash(i, key) % (8 * size)
  }

  function SetSlots(p: Params, data: seq<Byte>, key: Key, n: nat): (r: seq<Byte>)
    requires |data| > 0
    ensures |r| == |data|
  {
    if n == 0 then data else
      var before := SetSlots(p, data, key, n - 1);
      WithBit(before, Slot(p, |data|, n - 1, key))
  }

  /** The plain test, without shortcuts. */
  ghost predicate Tests(p: Params, data: seq<Byte>, key: Key)
    requires |data| > 0
  {
    forall i: nat :: i < p.funcs ==> Bit(data, Slot(p, |data|, i, key))
  }

  lemma {:induction false} SetSlotsIs(p: Params, data: seq<Byte>, key: Key, n: nat, m: nat)
    requires |data| > 0 && m < 8 * |data|
    ensures Bit(SetSlots(p, data, key, n), m) <==>
      Bit(data, m) || exists i: nat :: i < n && Slot(p, |data|, i, key) == m
  {
    hide Bit, WithBit, Slot;
    if n > 0 {
      SetSlotsIs(p, data, key, n - 1, m);
      WithBitIs(SetSlots(p, data, key, n - 1), Slot(p, |data|, n - 1, key), m);
    }
  }

  // ---------------------------------------------------------------- the operations

  function Inserted(p: Params, f: Filter, key: Key): (r: Filter)
    requires |f.data| > 0
    ensures |r.data| == |f.data|
  {
    if f.full then f else Filter(SetSlots(p, f.data, key, p.funcs), f.full, false)
  }

  ghost predicate Contains(p: Params, f: Filter, key: Key)
    requires |f.data| > 0
  {
    f.full || (!f.empty && Tests(p, f.data, key))
  }

  function Refreshed(f: Filter): (r: Filter)
  {
    Filter(f.data, AllSet(f.data), AllClear(f.data))
  }

  /** The flags agree with the bits where they are used. */
  ghost predicate Consistent(f: Filter)
  {
    |f.data| > 0 && (f.full ==> AllSet(f.data)) && (f.empty ==> AllClear(f.data))
  }

  lemma FullTests(p: Params, data: seq<Byte>, key: Key)
    requires |data| > 0 && AllSet(data)
    ensures Tests(p, data, key)
  {
    hide Bit, Slot, AllSet;
    forall i: nat | i < p.funcs
      ensures Bit(data, Slot(p, |data|, i, key))
    {
      FlagBits(data, Slot(p, |data|, i, key));
    }
  }

  lemma EmptyTests(p: Params, data: seq<Byte>, key: Key)
    requires |data| > 0 && AllClear(data) && p.funcs > 0
    ensures !Tests(p, data, key)
  {
    hide Bit, Slot, AllClear;
    FlagBits(data, Slot(p, |data|, 0, key));
  }

  /** The shortcuts give the answer of the plain test, except on an empty filter that has no hash function. */
  lemma ContainsAgrees(p: Params, f: Filter, key: Key)
    requires Consistent(f)
    ensures (Contains(p, f, key) <==> Tests(p, f.data, key)) <==> (p.funcs > 0 || f.full || !f.empty)
  {
    hide Bit, Slot, AllSet, AllClear;
    if f.full {
      FullTests(p, f.data, key);
    } else if f.empty && p.funcs > 0 {
      EmptyTests(p, f.data, key);
    }
  }

  lemma InsertedGrows(p: Params, f: Filter, key: Key)
    requires Consistent(f)
    ensures Consistent(Inserted(p, f, key)) && Within(f.data, Inserted(p, f, key).data)
    ensures Tests(p, Inserted(p, f, key).data, key)
  {
    hide Bit, Slot, SetSlots, AllSet, AllClear;
    if f.full {
      FullTests(p, f.data, key);
    } else {
      var r := SetSlots(p, f.data, key, p.funcs);
      forall m: nat | m < 8 * |f.data|
        ensures Bit(r, m) <==> Bit(f.data, m) || exists i: nat :: i < p.funcs && Slot(p, |f.data|, i, key) == m
      {
        SetSlotsIs(p, f.data, key, p.funcs, m);
      }
    }
  }

  lemma WithinTests(p: Params, a: seq<Byte>, b: seq<Byte>, key: Key)
    requires |a| > 0 && Within(a, b) && Tests(p, a, key)
    ensures Tests(p, b, key)
  {
    hide Bit, Slot;
  }

  lemma WithinTransitive(a: seq<Byte>, b: seq<Byte>, c: seq<Byte>)
    requires Within(a, b) && Within(b, c)
    ensures Within(a, c)
  {
    hide Bit;
  }

  // ---------------------------------------------------------------- transactions

  ghost predicate PushMatches(p: Params, f: Filter, pushes: seq<Key>)
    requires |f.data| > 0
  {
    exists j :: 0 <= j < |pushes| && pushes[j] != [] && Contains(p, f, pushes[j])
  }

  predicate Adds(p: Params, out: Out)
  {
    p.update == UpdateAll || (p.update == UpdatePubKeyOnly && out.payToKey)
  }

  /** The filter after the first `n` outputs, every matched output that is to be watched added. */
  ghost function Scanned(p: Params, f: Filter, hash: Key, vout: seq<Out>, n: nat): (g: Filter)
    requires |f.data| > 0 && n <= |vout|
    ensures |g.data| == |f.data|
  {
    if n == 0 then f else
      var g := Scanned(p, f, hash, vout, n - 1);
      if PushMatches(p, g, vout[n - 1].pushes) && Adds(p, vout[n - 1])
      then Inserted(p, g, p.outpoint(hash, n - 1)) else g
  }

  /** Output `i` matches when its turn comes. */
  ghost predicate OutMatches(p: Params, f: Filter, hash: Key, vout: seq<Out>, i: nat)
    requires |f.data| > 0 && i < |vout|
  {
    PushMatches(p, Scanned(p, f, hash, vout, i), vout[i].pushes)
  }

  ghost predicate InMatches(p: Params, f: Filter, txin: In)
    requires |f.data| > 0
  {
    Contains(p, f, txin.prevout) || PushMatches(p, f, txin.pushes)
  }

  ghost predicate Relevant(p: Params, f: Filter, tx: Tx, hash: Key)
    requires |f.data| > 0
  {
    f.full || (!f.empty && (
      || Contains(p, f, hash)
      || (exists i :: 0 <= i < |tx.vout| && OutMatches(p, f, hash, tx.vout, i))
      || (exists i :: 0 <= i < |tx.vin| && InMatches(p, Scanned(p, f, hash, tx.vout, |tx.vout|), tx.vin[i]))))
  }

  ghost function Offered(p: Params, f: Filter, tx: Tx, hash: Key): (g: Filter)
    requires |f.data| > 0
    ensures |g.data| == |f.data|
  {
    if f.full || f.empty then f else Scanned(p, f, hash, tx.vout, |tx.vout|)
  }

  lemma {:induction false} ScannedGrows(p: Params, f: Filter, hash: Key, vout: seq<Out>, m: nat, n: nat)
    requires Consistent(f) && m <= n <= |vout|
    ensures Consistent(Scanned(p, f, hash, vout, n))
    ensures Within(Scanned(p, f, hash, vout, m).data, Scanned(p, f, hash, vout, n).data)
    decreases n
  {
    hide Within, Inserted, PushMatches, AllSet, AllClear;
    var g := Scanned(p, f, hash, vout, n);
    if n == 0 {
      WithinItself(g.data);
    } else if m == n {
      ScannedGrows(p, f, hash, vout, 0, n - 1);
      InsertedGrows(p, Scanned(p, f, hash, vout, n - 1), p.outpoint(hash, n - 1));
      WithinItself(g.data);
    } else {
      var h := Scanned(p, f, hash, vout, n - 1);
      ScannedGrows(p, f, hash, vout, m, n - 1);
      InsertedGrows(p, h, p.outpoint(hash, n - 1));
      WithinItself(h.data);
      WithinTransitive(Scanned(p, f, hash, vout, m).data, h.data, g.data);
    }
  }

  lemma WithinItself(a: seq<Byte>)
    ensures Within(a, a)
  {
    hide Bit;
  }

  // ---------------------------------------------------------------- runs

  datatype Op = Insert(key: Key) | Refresh | Offer(tx: Tx, hash: Key)

  ghost function After(p: Params, f: Filter, op: Op): (g: Filter)
    requires |f.data| > 0
    ensures |g.data| == |f.data|
  {
    match op
    case Insert(key) => Inserted(p, f, key)
    case Refresh => Refreshed(f)
    case Offer(tx, hash) => Offered(p, f, tx, hash)
  }

  ghost function AfterAll(p: Params, f: Filter, ops: seq<Op>): (g: Filter)
    requires |f.data| > 0
    ensures |g.data| == |f.data|
  {
    if ops == [] then f else After(p, AfterAll(p, f, ops[..|ops| - 1]), ops[|ops| - 1])
  }

  lemma StepGrows(p: Params, f: Filter, op: Op)
    requires Consistent(f)
    ensures Consistent(After(p, f, op)) && Within(f.data, After(p, f, op).data)
  {
    hide Within, Inserted, Scanned, AllSet, AllClear;
    match op
    case Insert(key) =>
      InsertedGrows(p, f, key);
    case Refresh =>
      WithinItself(f.data);
    case Offer(tx, hash) =>
      WithinItself(f.data);
      ScannedGrows(p, f, hash, tx.vout, 0, |tx.vout|);
      ScannedNothing(p, f, hash, tx.vout);
  }

  lemma ScannedNothing(p: Params, f: Filter, hash: Key, vout: seq<Out>)
    requires |f.data| > 0
    ensures Scanned(p, f, hash, vout, 0) == f
  {
  }

  lemma {:induction false} RunGrows(p: Params, f: Filter, ops: seq<Op>)
    requires Consistent(f)
    ensures Consistent(AfterAll(p, f, ops)) && Within(f.data, AfterAll(p, f, ops).data)
  {
    hide Within, After, AllSet, AllClear;
    if ops == [] {
      WithinItself(f.data);
    } else {
      var before := ops[..|ops| - 1];
      RunGrows(p, f, before);
      StepGrows(p, AfterAll(p, f, before), ops[|ops| - 1]);
      WithinTransitive(f.data, AfterAll(p, f, before).data, AfterAll(p, f, ops).data);
    }
  }

  lemma TestedStays(p: Params, f: Filter, ops: seq<Op>, key: Key)
    requires Consistent(f) && p.funcs > 0 && Tests(p, f.data, key)
    ensures Contains(p, AfterAll(p, f, ops), key)
  {
    hide Within, Tests, AfterAll, Contains;
    RunGrows(p, f, ops);
    WithinTests(p, f.data, AfterAll(p, f, ops).data, key);
    ContainsAgrees(p, AfterAll(p, f, ops), key);
  }

  /** With a hash function, a key once inserted is found after whatever follows. */
  lemma InsertedStays(p: Params, f: Filter, key: Key, ops: seq<Op>)
    requires Consistent(f) && p.funcs > 0
    ensures Contains(p, AfterAll(p, Inserted(p, f, key), ops), key)
  {
    hide Inserted, AfterAll, Contains, Tests, AllSet, AllClear;
    InsertedGrows(p, f, key);
    TestedStays(p, Inserted(p, f, key), ops, key);
  }

  /** Data with a bit set stays so, and then the filter is never flagged empty. */
  lemma NeverEmpty(p: Params, f: Filter, ops: seq<Op>)
    requires Consistent(f) && !AllClear(f.data)
    ensures !AfterAll(p, f, ops).empty
  {
    hide AfterAll, Within;
    RunGrows(p, f, ops);
    if AllClear(AfterAll(p, f, ops).data) {
      WithinClear(f.data, AfterAll(p, f, ops).data);
    }
  }

  lemma WithinClear(a: seq<Byte>, b: seq<Byte>)
    requires Within(a, b) && AllClear(b)
    ensures AllClear(a)
  {
    hide Within, Mask;
    forall i | 0 <= i < |a|
      ensures a[i] == 0
    {
      forall j: nat | j < 8
        ensures a[i] & Mask(j) == 0
      {
        NoBit(a, b, i, j);
      }
      NoMasks(a[i]);
    }
  }

  lemma NoBit(a: seq<Byte>, b: seq<Byte>, i: nat, j: nat)
    requires Within(a, b) && AllClear(b) && i < |a| && j < 8
    ensures a[i] & Mask(j) == 0
  {
    hide Bit, Mask, AllClear;
    BitIs(a, i, j);
    FlagBits(b, 8 * i + j);
  }

  lemma BitIs(a: seq<Byte>, i: nat, j: nat)
    requires i < |a| && j < 8
    ensures Bit(a, 8 * i + j) <==> a[i] & Mask(j) != 0
  {
    assert (8 * i + j) / 8 == i && (8 * i + j) % 8 == j;
  }

  lemma NoMasks(b: Byte)
    requires b & Mask(0) == 0 && b & Mask(1) == 0 && b & Mask(2) == 0 && b & Mask(3) == 0
    requires b & Mask(4) == 0 && b & Mask(5) == 0 && b & Mask(6) == 0 && b & Mask(7) == 0
    ensures b == 0
  {
  }

  /** Without a hash function nothing is ever set. */
  lemma NothingSet(p: Params, f: Filter, key: Key)
    requires |f.data| > 0 && p.funcs == 0
    ensures Inserted(p, f, key).data == f.data
  {
  }

  /** A filter without a hash function and without a bit forgets a key as soon as its flags are updated. */
  lemma ForgottenKey(p: Params, f: Filter, key: Key)
    requires Consistent(f) && p.funcs == 0 && AllClear(f.data)
    ensures Contains(p, Inserted(p, f, key), key)
    ensures !Contains(p, AfterAll(p, Inserted(p, f, key), [Refresh]), key)
  {
    NothingSet(p, f, key);
    assert f.data[0] != 0xFF;
    AfterOne(p, Inserted(p, f, key), Refresh);
  }

  lemma AfterOne(p: Params, f: Filter, op: Op)
    requires |f.data| > 0
    ensures AfterAll(p, f, [op]) == After(p, f, op)
  {
    hide After;
    assert [op][..0] == [];
  }

  /** An inserted key is found after whatever follows exactly if there is a hash function or the filter had a
      bit set. */
  lemma InsertedStaysIff(p: Params, f: Filter, key: Key)
    requires Consistent(f)
    ensures (forall ops :: Contains(p, AfterAll(p, Inserted(p, f, key), ops), key)) <==>
      p.funcs > 0 || !AllClear(f.data)
  {
    hide AfterAll, AllSet, AllClear, Inserted;
    InsertedGrows(p, f, key);
    if p.funcs > 0 {
      forall ops ensures Contains(p, AfterAll(p, Inserted(p, f, key), ops), key) {
        InsertedStays(p, f, key, ops);
      }
    } else if AllClear(f.data) {
      ForgottenKey(p, f, key);
    } else {
      NothingSet(p, f, key);
      KeptClear(f, Inserted(p, f, key));
      forall ops ensures Contains(p, AfterAll(p, Inserted(p, f, key), ops), key) {
        NeverEmpty(p, Inserted(p, f, key), ops);
      }
    }
  }

  lemma KeptClear(f: Filter, g: Filter)
    requires f.data == g.data
    ensures AllClear(f.data) <==> AllClear(g.data)
  {
  }

  /** `tx` was offered to `f`, and its output `i` matched or everything did. */
  ghost predicate Matched(p: Params, f: Filter, tx: Tx, hash: Key, i: nat)
    requires |f.data| > 0 && i < |tx.vout|
  {
    f.full || (!f.empty && OutMatches(p, f, hash, tx.vout, i))
  }

  /** Every spender of output `i` is relevant, whatever comes between. */
  ghost predicate SpendersRelevant(p: Params, f: Filter, tx: Tx, hash: Key, i: nat)
    requires |f.data| > 0
  {
    forall ops, spender, id, k :: Spends(p, spender, k, hash, i) ==>
      Relevant(p, AfterAll(p, Offered(p, f, tx, hash), ops), spender, id)
  }

  predicate Spends(p: Params, spender: Tx, k: nat, hash: Key, i: nat)
  {
    k < |spender.vin| && spender.vin[k].prevout == p.outpoint(hash, i)
  }

  /** With all matched outputs added, spenders of an output that matched are relevant, whatever comes between,
      exactly if there is a hash function or the filter had a bit set. */
  lemma SpendersRelevantIff(p: Params, f: Filter, tx: Tx, hash: Key, i: nat)
    requires Consistent(f) && p.update == UpdateAll && i < |tx.vout| && Matched(p, f, tx, hash, i)
    ensures SpendersRelevant(p, f, tx, hash, i) <==> p.funcs > 0 || !AllClear(f.data)
  {
    hide AfterAll, AllSet, AllClear, Relevant, Offered, Matched;
    if p.funcs > 0 || !AllClear(f.data) {
      forall ops, spender, id, k | Spends(p, spender, k, hash, i)
        ensures Relevant(p, AfterAll(p, Offered(p, f, tx, hash), ops), spender, id)
      {
        if p.funcs > 0 {
          SpenderIsRelevant(p, f, tx, hash, i, ops, spender, id, k);
        } else {
          UnhashedIsRelevant(p, f, tx, hash, ops, spender, id);
        }
      }
    } else {
      var spender := Tx([], [In(p.outpoint(hash, i), [])]);
      assert Spends(p, spender, 0, hash, i);
      ForgottenOutput(p, f, tx, hash, spender);
    }
  }

  lemma ForgottenOutput(p: Params, f: Filter, tx: Tx, hash: Key, spender: Tx)
    requires Consistent(f) && p.funcs == 0 && AllClear(f.data)
    ensures !Relevant(p, AfterAll(p, Offered(p, f, tx, hash), [Refresh]), spender, hash)
  {
    hide Scanned, AllSet;
    OfferedSame(p, f, tx, hash);
    FlagBits(f.data, 0);
    AfterOne(p, Offered(p, f, tx, hash), Refresh);
  }

  lemma OfferedSame(p: Params, f: Filter, tx: Tx, hash: Key)
    requires |f.data| > 0 && p.funcs == 0
    ensures Offered(p, f, tx, hash).data == f.data
  {
    ScannedSame(p, f, hash, tx.vout, |tx.vout|);
  }

  lemma {:induction false} ScannedSame(p: Params, f: Filter, hash: Key, vout: seq<Out>, n: nat)
    requires |f.data| > 0 && p.funcs == 0 && n <= |vout|
    ensures Scanned(p, f, hash, vout, n).data == f.data
  {
    hide PushMatches;
    if n > 0 {
      ScannedSame(p, f, hash, vout, n - 1);
    }
  }

  lemma UnhashedIsRelevant(p: Params, f: Filter, tx: Tx, hash: Key, ops: seq<Op>, spender: Tx, id: Key)
    requires Consistent(f) && p.funcs == 0 && !AllClear(f.data)
    ensures Relevant(p, AfterAll(p, Offered(p, f, tx, hash), ops), spender, id)
  {
    hide AfterAll, AllSet, Within, Scanned;
    StepGrows(p, f, Offer(tx, hash));
    OfferedSame(p, f, tx, hash);
    NeverEmpty(p, Offered(p, f, tx, hash), ops);
  }

  /** With a hash function, whoever spends an output that matched earlier is relevant, whatever came between. */
  lemma SpenderIsRelevant(p: Params, f: Filter, tx: Tx, hash: Key, i: nat, ops: seq<Op>, spender: Tx, id: Key, k: nat)
    requires Consistent(f) && p.funcs > 0 && p.update == UpdateAll
    requires i < |tx.vout| && Matched(p, f, tx, hash, i) && Spends(p, spender, k, hash, i)
    ensures Relevant(p, AfterAll(p, Offered(p, f, tx, hash), ops), spender, id)
  {
    hide Within, Tests, AfterAll, Scanned, PushMatches, AllSet, AllClear;
    var key := p.outpoint(hash, i);
    var g := Offered(p, f, tx, hash);
    StepGrows(p, f, Offer(tx, hash));
    OfferedTests(p, f, tx, hash, i);
    TestedStays(p, g, ops, key);
    RunGrows(p, g, ops);
    var h := AfterAll(p, g, ops);
    if !h.full {
      var last := Scanned(p, h, id, spender.vout, |spender.vout|);
      ScannedGrows(p, h, id, spender.vout, 0, |spender.vout|);
      ScannedNothing(p, h, id, spender.vout);
      WithinTests(p, h.data, last.data, key);
      ContainsAgrees(p, last, key);
      assert InMatches(p, last, spender.vin[k]);
    }
  }

  /** A matched output is in the filter afterwards. */
  lemma OfferedTests(p: Params, f: Filter, tx: Tx, hash: Key, i: nat)
    requires Consistent(f) && p.update == UpdateAll && i < |tx.vout| && Matched(p, f, tx, hash, i)
    ensures Tests(p, Offered(p, f, tx, hash).data, p.outpoint(hash, i))
  {
    hide Within, Tests, PushMatches, AllSet, AllClear, Inserted;
    var key := p.outpoint(hash, i);
    if f.full {
      FullTests(p, f.data, key);
    } else {
      ScannedGrows(p, f, hash, tx.vout, 0, i);
      InsertedGrows(p, Scanned(p, f, hash, tx.vout, i), key);
      ScannedGrows(p, f, hash, tx.vout, i + 1, |tx.vout|);
      WithinTests(p, Scanned(p, f, hash, tx.vout, i + 1).data, Scanned(p, f, hash, tx.vout, |tx.vout|).data, key);
    }
  }

  // ---------------------------------------------------------------- the filter object

  class BloomFilter {
    const p: Params
    var vData: array<Byte>
    var isFull: bool
    var isEmpty: bool

    ghost predicate Valid()
      reads this
    {
      vData.Length > 0
    }

    ghost function Abs(): (f: Filter)
      requires Valid()
      reads this, vData
    {
      Filter(vData[..], isFull, isEmpty)
    }

    /** A filter of `size` bytes with no bit set and no shortcut taken. */
    constructor (p: Params, size: nat)
      requires size > 0
      ensures Valid() && fresh(vData) && this.p == p && Abs() == Filter(ZeroBytes(size), false, false)
    {
      this.p := p;
      vData := new Byte[size](_ => 0);
      isFull, isEmpty := false, false;
      new;
      assert vData[..] == ZeroBytes(size);
    }

    method Insert(key: Key)
      requires Valid()
      modifies this, vData
      ensures Valid() && vData == old(vData) && Abs() == Inserted(p, old(Abs()), key)
    {
      hide Slot, Mask;
      if isFull {
        return;
      }
      ghost var data := vData[..];
      for i := 0 to p.funcs
        invariant Valid() && vData == old(vData) && !isFull && vData[..] == SetSlots(p, data, key, i)
      {
        var n := Slot(p, vData.Length, i, key);
        vData[n / 8] := vData[n / 8] | Mask(n % 8);
      }
      isEmpty := false;
    }

    method Has(key: Key) returns (found: bool)
      requires Valid()
      ensures found <==> Contains(p, Abs(), key)
    {
      hide Slot, Mask;
      if isFull {
        return true;
      }
      if isEmpty {
        return false;
      }
      for i := 0 to p.funcs
        invariant forall k: nat :: k < i ==> Bit(vData[..], Slot(p, vData.Length, k, key))
      {
        var n := Slot(p, vData.Length, i, key);
        if vData[n / 8] & Mask(n % 8) == 0 {
          assert !Bit(vData[..], n);
          return false;
        }
        assert Bit(vData[..], n);
      }
      return true;
    }

    method UpdateEmptyFull()
      requires Valid()
      modifies `isFull, `isEmpty
      ensures Valid() && vData == old(vData) && Abs() == Refreshed(old(Abs()))
    {
      var full, empty := true, true;
      for i := 0 to vData.Length
        invariant full <==> forall k :: 0 <= k < i ==> vData[k] == 0xFF
        invariant empty <==> forall k :: 0 <= k < i ==> vData[k] == 0
      {
        full := full && vData[i] == 0xFF;
        empty := empty && vData[i] == 0;
      }
      isFull, isEmpty := full, empty;
    }

    method AnyPush(pushes: seq<Key>) returns (found: bool)
      requires Valid()
      ensures found <==> PushMatches(p, Abs(), pushes)
    {
      hide Contains;
      for j := 0 to |pushes|
        invariant forall k :: 0 <= k < j ==> pushes[k] == [] || !Contains(p, Abs(), pushes[k])
      {
        if pushes[j] != [] {
          var c := Has(pushes[j]);
          if c {
            return true;
          }
        }
      }
      return false;
    }

    /** `IsRelevantAndUpdate`. */
    method IsRelevantAndUpdate(tx: Tx, hash: Key) returns (relevant: bool)
      requires Valid()
      modifies this, vData
      ensures Valid() && vData == old(vData)
      ensures Abs() == Offered(p, old(Abs()), tx, hash)
      ensures relevant <==> Relevant(p, old(Abs()), tx, hash)
    {
      hide Contains, PushMatches, Inserted;
      ghost var f := Abs();
      if isFull {
        return true;
      }
      if isEmpty {
        return false;
      }
      var byHash := Has(hash);
      var found := byHash;
      for i := 0 to |tx.vout|
        invariant Valid() && vData == old(vData) && Abs() == Scanned(p, f, hash, tx.vout, i)
        invariant found <==> byHash || exists k :: 0 <= k < i && OutMatches(p, f, hash, tx.vout, k)
      {
        var matched := AnyPush(tx.vout[i].pushes);
        assert matched <==> OutMatches(p, f, hash, tx.vout, i);
        if matched {
          found := true;
          if p.update == UpdateAll {
            Insert(p.outpoint(hash, i));
          } else if p.update == UpdatePubKeyOnly {
            if tx.vout[i].payToKey {
              Insert(p.outpoint(hash, i));
            }
          }
        }
      }
      if found {
        return true;
      }
      for i := 0 to |tx.vin|
        invariant Valid() && vData == old(vData) && Abs() == Scanned(p, f, hash, tx.vout, |tx.vout|)
        invariant forall k :: 0 <= k < i ==> !InMatches(p, Abs(), tx.vin[k])
      {
        var spends := Has(tx.vin[i].prevout);
        if spends {
          assert InMatches(p, Abs(), tx.vin[i]);
          return true;
        }
        var matched := AnyPush(tx.vin[i].pushes);
        if matched {
          assert InMatches(p, Abs(), tx.vin[i]);
          return true;
        }
      }
      return false;
    }
  }
}
