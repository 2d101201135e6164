/**
 Whole runs of the address manager, from an empty one: the invariant holds after every run, and what
 a run can and cannot forget.
 */
module AddrRuns {
  import opened AddrTables
  import opened AddrTableProofs

  /** One locked operation, with the clock readings and random choices it happened to make. */
  datatype Op =
    | Add(na: NetAddr, src: NetAddr, draw: nat, now: int, victim: set<string>)
    | MarkGood(na: NetAddr, now: int)
    | MarkAttempt(na: NetAddr, now: int)
    | MarkConnected(na: NetAddr, now: int)
    | PutServices(na: NetAddr, services: set<nat>)

  predicate Legal(hs: Hasher, t: Tables, op: Op)
    requires Inv(hs, t)
  {
    op.Add? ==> UpdateLegal(hs, t, op.na, op.src, op.draw, op.now, op.victim)
  }

  function Apply(hs: Hasher, t: Tables, op: Op): Tables
    requires Inv(hs, t) && Legal(hs, t, op)
  {
    match op
    case Add(na, src, draw, now, victim) => Update(hs, t, na, src, draw, now, victim)
    case MarkGood(na, now) => Promote(hs, t, na, now)
    case MarkAttempt(na, now) => Attempted(t, na, now)
    case MarkConnected(na, now) => ConnectedTo(t, na, now)
    case PutServices(na, services) => ServicesSet(t, na, services)
  }

  /** `run` is the successive tables of a manager that started at the first of them. */
  ghost predicate IsRun(hs: Hasher, run: seq<Tables>, ops: seq<Op>) {
    && |run| == |ops| + 1
    && forall i :: 0 <= i < |ops| ==> IsStep(hs, run[i], ops[i], run[i + 1])
  }

  ghost predicate IsStep(hs: Hasher, t: Tables, op: Op, t': Tables) {
    Inv(hs, t) ==> Legal(hs, t, op) && t' == Apply(hs, t, op)
  }

  lemma ApplyKeepsInv(hs: Hasher, t: Tables, op: Op)
    requires Inv(hs, t) && Legal(hs, t, op)
    ensures Inv(hs, Apply(hs, t, op))
  {
    match op
    case Add(na, src, draw, now, victim) => UpdateKeepsInv(hs, t, na, src, draw, now, victim);
    case MarkGood(na, now) => PromoteKeepsInv(hs, t, na, now);
    case MarkAttempt(na, now) => AttemptedKeepsInv(hs, t, na, now);
    case MarkConnected(na, now) => ConnectedToKeepsInv(hs, t, na, now);
    case PutServices(na, services) => ServicesSetKeepsInv(hs, t, na, services);
  }

  /** The table invariant holds throughout every run that starts with it, a fresh manager's included. */
  lemma {:induction false} RunKeepsInv(hs: Hasher, run: seq<Tables>, ops: seq<Op>, i: nat)
    requires IsRun(hs, run, ops) && i < |run| && (run[0] == EMPTY || Inv(hs, run[0]))
    ensures Inv(hs, run[i])
  {
    if i == 0 {
      EmptyInv(hs);
    } else {
      RunKeepsInv(hs, run, ops, i - 1);
      assert IsStep(hs, run[i - 1], ops[i - 1], run[i]);
      ApplyKeepsInv(hs, run[i - 1], ops[i - 1]);
    }
  }

  lemma CountsSplitIndex(index: map<string, Entry>)
    ensures |NewKeys(index)| + |TriedKeys(index)| == |index|
  {
    assert NewKeys(index) + TriedKeys(index) == index.Keys;
    assert NewKeys(index) !! TriedKeys(index);
  }

  /** What every state of every run satisfies, in the code's own terms: the address count is the index
      size, no bucket is over its bound, and the random draw of updateAddress is never asked for a
      number below zero. */
  lemma RunBounds(hs: Hasher, run: seq<Tables>, ops: seq<Op>, i: nat)
    requires IsRun(hs, run, ops) && i < |run| && run[0] == EMPTY
    ensures
      var t := run[i];
      && t.nNew + t.nTried == |t.index|
      && (forall b :: 0 <= b < |t.buckets| ==> |t.buckets[b]| <= NEW_BUCKET_SIZE + 1)
      && (forall b :: 0 <= b < |t.tried| ==> |t.tried[b]| <= TRIED_BUCKET_SIZE)
      && (forall k :: k in t.index && !t.index[k].tried ==> 1 <= t.index[k].refs <= NEW_BUCKETS_PER_ADDRESS)
  {
    RunKeepsInv(hs, run, ops, i);
    CountsSplitIndex(run[i].index);
  }

  // ---------- Buckets over their size ----------

  /** What expiry takes out of a bucket: every bad entry and, if there is any that is not bad, one of those
      as well. */
  lemma ExpireDropsBoth(t: Tables, b: nat, now: int, victim: set<string>)
    requires b < |t.buckets| && t.buckets[b] <= t.index.Keys && IsVictim(t, b, now, victim)
    ensures
      var bad, left := BadKeys(t, b, now), Expire(t, b, now, victim).buckets[b];
      && left == t.buckets[b] - bad - victim && victim !! bad
      && |left| == |t.buckets[b]| - |bad| - (if t.buckets[b] <= bad then 0 else 1)
  {
    var bad := BadKeys(t, b, now);
    var good := t.buckets[b] - bad;
    assert |good| == |t.buckets[b]| - |bad| by {
      assert t.buckets[b] == good + bad && good !! bad;
    }
    assert t.buckets[b] - (bad + victim) == good - victim;
    if good != {} {
      var v :| v in good && victim == {v};
      assert |good - victim| == |good| - 1 by {
        assert good == good - victim + {v};
      }
    }
  }

  predicate SizesOk(buckets: seq<set<string>>) {
    forall b :: 0 <= b < |buckets| ==> |buckets[b]| <= NEW_BUCKET_SIZE
  }

  predicate WithinSize(t: Tables) {
    SizesOk(t.buckets)
  }

  lemma SizesAfterPut(buckets: seq<set<string>>, b: nat, k: string)
    requires SizesOk(buckets) && b < |buckets| && k !in buckets[b]
    ensures SizesOk(buckets[b := buckets[b] + {k}]) <==> |buckets[b]| < NEW_BUCKET_SIZE
  {
    var after := buckets[b := buckets[b] + {k}];
    assert |after[b]| == |buckets[b]| + 1;
  }

  /** An address goes on to a bucket when it is routable and not known yet, or known, not tried, in fewer than
      eight buckets and drawn. */
  predicate GoesOn(hs: Hasher, t: Tables, na: NetAddr, draw: nat)
    requires Inv(hs, t)
  {
    var k := NetAddressKey(na);
    && hs.routable(na.endpoint)
    && (k in t.index ==>
          && !t.index[k].tried && t.index[k].refs != NEW_BUCKETS_PER_ADDRESS
          && (t.index[k].refs > 0 ==> draw % (2 * t.index[k].refs) == 0))
  }

  lemma GoesOnIff(hs: Hasher, t: Tables, na: NetAddr, src: NetAddr, draw: nat)
    requires Inv(hs, t)
    ensures Noted(hs, t, na, src, draw).1 <==> GoesOn(hs, t, na, draw)
    ensures Noted(hs, t, na, src, draw).0.buckets == t.buckets
  {
  }

  /** The operation adds an address to a bucket that is full and does not hold it. */
  predicate Overfills(hs: Hasher, t: Tables, op: Op)
    requires Inv(hs, t)
  {
    && op.Add? && GoesOn(hs, t, op.na, op.draw)
    && NetAddressKey(op.na) !in t.buckets[hs.NewBucket(op.na, op.src)]
    && |t.buckets[hs.NewBucket(op.na, op.src)]| == NEW_BUCKET_SIZE
  }

  /** Adding an address puts it into its bucket and nowhere else, if it goes on. */
  lemma BucketsAfterAdd(hs: Hasher, t: Tables, op: Op)
    requires Inv(hs, t) && Legal(hs, t, op) && op.Add? && WithinSize(t)
    ensures
      var b, k := hs.NewBucket(op.na, op.src), NetAddressKey(op.na);
      Apply(hs, t, op).buckets ==
      if GoesOn(hs, t, op.na, op.draw) && k !in t.buckets[b] then t.buckets[b := t.buckets[b] + {k}] else t.buckets
  {
    GoesOnIff(hs, t, op.na, op.src, op.draw);
    NotedKeepsInv(hs, t, op.na, op.src, op.draw);
  }

  lemma AddOverfills(hs: Hasher, t: Tables, op: Op)
    requires Inv(hs, t) && Legal(hs, t, op) && op.Add? && WithinSize(t)
    ensures WithinSize(Apply(hs, t, op)) <==> !Overfills(hs, t, op)
  {
    BucketsAfterAdd(hs, t, op);
    var buckets, b, k := t.buckets, hs.NewBucket(op.na, op.src), NetAddressKey(op.na);
    if k !in buckets[b] {
      SizesAfterPut(buckets, b, k);
    }
  }

  lemma PulledOutIsSmaller(t: Tables, k: string, c: nat)
    requires k in t.index && c < |t.buckets|
    ensures PulledOut(t, k).buckets[c] == t.buckets[c] - {k}
    ensures |t.buckets[c] - {k}| == |t.buckets[c]| - (if k in t.buckets[c] then 1 else 0)
  {
    if k in t.buckets[c] {
      assert t.buckets[c] == t.buckets[c] - {k} + {k};
    } else {
      assert t.buckets[c] == t.buckets[c] - {k};
    }
  }

  lemma LandingIsRoomy(hs: Hasher, t: Tables, k: string, r: string)
    requires NewInv(t) && k in t.index && r in t.index && FirstHome(t.buckets, k, 0) < NEW_BUCKET_COUNT
    requires WithinSize(t)
    ensures |PulledOut(t, k).buckets[Landing(hs, t, k, r)]| < NEW_BUCKET_SIZE
  {
    PulledOutIsSmaller(t, k, Landing(hs, t, k, r));
  }

  lemma PulledOutSizes(t: Tables, k: string)
    requires k in t.index && WithinSize(t)
    ensures SizesOk(PulledOut(t, k).buckets)
  {
    forall c | 0 <= c < |t.buckets| ensures |PulledOut(t, k).buckets[c]| <= NEW_BUCKET_SIZE {
      PulledOutIsSmaller(t, k, c);
    }
  }

  lemma MoveToRoom(hs: Hasher, t: Tables, k: string)
    requires Inv(hs, t) && k in t.index && FirstHome(t.buckets, k, 0) < NEW_BUCKET_COUNT
    requires |t.tried[hs.TriedBucket(t.index[k].na)]| < TRIED_BUCKET_SIZE
    ensures Moved(hs, t, k).buckets == PulledOut(t, k).buckets
  {
  }

  /** The entry that `k` displaces. */
  function Displaced(hs: Hasher, t: Tables, k: string): string
    requires TriedInv(hs, t) && k in t.index && t.tried[hs.TriedBucket(t.index[k].na)] != []
  {
    var b := hs.TriedBucket(t.index[k].na);
    t.tried[b][FirstEldest(t.index, t.tried[b])]
  }

  lemma MoveDisplaces(hs: Hasher, t: Tables, k: string, nb: nat)
    requires Inv(hs, t) && k in t.index && FirstHome(t.buckets, k, 0) < NEW_BUCKET_COUNT
    requires |t.tried[hs.TriedBucket(t.index[k].na)]| >= TRIED_BUCKET_SIZE
    requires Displaced(hs, t, k) in t.index && nb == Landing(hs, t, k, Displaced(hs, t, k))
    ensures nb < |t.buckets| == |PulledOut(t, k).buckets|
    ensures Moved(hs, t, k).buckets ==
      PulledOut(t, k).buckets[nb := PulledOut(t, k).buckets[nb] + {Displaced(hs, t, k)}]
  {
  }

  lemma SizesAfterAny(buckets: seq<set<string>>, b: nat, r: string)
    requires SizesOk(buckets) && b < |buckets| && |buckets[b]| < NEW_BUCKET_SIZE
    ensures SizesOk(buckets[b := buckets[b] + {r}])
  {
    assert |buckets[b] + {r}| <= |buckets[b]| + 1;
  }

  lemma MovedWithinSize(hs: Hasher, t: Tables, k: string)
    requires Inv(hs, t) && k in t.index && !t.index[k].tried && WithinSize(t)
    ensures WithinSize(Moved(hs, t, k))
  {
    NewEntryHasHome(hs, t, k);
    PulledOutSizes(t, k);
    if |t.tried[hs.TriedBucket(t.index[k].na)]| < TRIED_BUCKET_SIZE {
      MoveToRoom(hs, t, k);
    } else {
      var r := Displaced(hs, t, k);
      assert r in t.tried[hs.TriedBucket(t.index[k].na)];
      var nb := Landing(hs, t, k, r);
      LandingIsRoomy(hs, t, k, r);
      MoveDisplaces(hs, t, k, nb);
      SizesAfterAny(PulledOut(t, k).buckets, nb, r);
    }
  }

  lemma GoodWithinSize(hs: Hasher, t: Tables, na: NetAddr, now: int)
    requires Inv(hs, t) && WithinSize(t)
    ensures WithinSize(Promote(hs, t, na, now))
  {
    var k := NetAddressKey(na);
    if k in t.index && !t.index[k].tried {
      RecordedKeepsInv(hs, t, k, now);
      var e := t.index[k].(lastSuccess := now, lastAttempt := now, attempts := 0);
      MovedWithinSize(hs, t.(index := t.index[k := e]), k);
    }
  }

  /** From tables with no bucket over its size of 64, an operation leads to one of 65 exactly when it adds an
      address to a full bucket. */
  lemma OverSizeIff(hs: Hasher, t: Tables, op: Op)
    requires Inv(hs, t) && Legal(hs, t, op) && WithinSize(t)
    ensures WithinSize(Apply(hs, t, op)) <==> !Overfills(hs, t, op)
  {
    match op
    case Add(_, _, _, _, _) => AddOverfills(hs, t, op);
    case MarkGood(na, now) => GoodWithinSize(hs, t, na, now);
    case MarkAttempt(na, now) => assert Attempted(t, na, now).buckets == t.buckets;
    case MarkConnected(na, now) => assert ConnectedTo(t, na, now).buckets == t.buckets;
    case PutServices(na, services) => assert ServicesSet(t, na, services).buckets == t.buckets;
  }

  // A run that fills a bucket.

  /** A source of addresses that are all routable and all belong into the first bucket. */
  const CROWDED := Hasher((a: string) => "", (a: string) => true, (ps: seq<Piece>) => 0)

  function Name(n: nat): (s: string)
    ensures |s| == n
  {
    seq(n, _ => 'a')
  }

  function Names(n: nat): set<string> {
    set i | 0 <= i < n :: Name(i)
  }

  function NewcomerOp(n: nat): Op {
    Add(NetAddr(Name(n), 0, {}), NetAddr("", 0, {}), 0, 0, {})
  }

  function NewcomerEntry(k: string): Entry {
    Entry(NetAddr(k, 0, {}), NetAddr("", 0, {}), 0, ZERO_TIME, ZERO_TIME, 1, false)
  }

  /** The tables after `n` newcomers. */
  function Filled(n: nat): Tables {
    Tables(map k | k in Names(n) :: NewcomerEntry(k), NoBuckets()[0 := Names(n)], NoLists(), n, 0)
  }

  lemma {:induction false} NamesAreMany(n: nat)
    ensures |Names(n)| == n && Name(n) !in Names(n) && Names(n + 1) == Names(n) + {Name(n)}
  {
    assert forall i :: 0 <= i < n ==> |Name(i)| != |Name(n)|;
    if n == 0 {
      assert Names(0) == {};
    } else {
      NamesAreMany(n - 1);
    }
    forall k ensures k in Names(n + 1) <==> k in Names(n) + {Name(n)} {
      if k in Names(n + 1) {
        var i :| 0 <= i < n + 1 && Name(i) == k;
      }
    }
  }

  /** The tables once an unknown address is noted and not yet in a bucket. */
  function Noticed(t: Tables, na: NetAddr, src: NetAddr): Tables {
    t.(index := t.index[NetAddressKey(na) := Entry(na, src, 0, ZERO_TIME, ZERO_TIME, 0, false)], nNew := t.nNew + 1)
  }

  /** Adding an address that is not known, to a bucket that is not over its size. */
  lemma UnknownIsAdded(hs: Hasher, t: Tables, op: Op)
    requires Inv(hs, t) && op.Add? && hs.routable(op.na.endpoint) && NetAddressKey(op.na) !in t.index
    requires |t.buckets[hs.NewBucket(op.na, op.src)]| <= NEW_BUCKET_SIZE
    ensures Legal(hs, t, op)
    ensures Apply(hs, t, op) == WithRef(Noticed(t, op.na, op.src), hs.NewBucket(op.na, op.src), NetAddressKey(op.na))
  {
    var b, k := hs.NewBucket(op.na, op.src), NetAddressKey(op.na);
    assert k !in t.buckets[b];
    assert Noted(hs, t, op.na, op.src, op.draw) == (Noticed(t, op.na, op.src), true);
    NotedKeepsInv(hs, t, op.na, op.src, op.draw);
  }

  lemma NewcomerIsPut(n: nat)
    ensures
      var t := Noticed(Filled(n), NetAddr(Name(n), 0, {}), NetAddr("", 0, {}));
      WithRef(t, 0, Name(n)) == Filled(n + 1)
  {
    NamesAreMany(n);
    var t := Noticed(Filled(n), NetAddr(Name(n), 0, {}), NetAddr("", 0, {}));
    var done := WithRef(t, 0, Name(n));
    assert done.index == Filled(n + 1).index;
    assert done.buckets == Filled(n + 1).buckets;
  }

  lemma UnknownIsStep(hs: Hasher, t: Tables, op: Op, t': Tables)
    requires op.Add? && hs.routable(op.na.endpoint) && NetAddressKey(op.na) !in t.index
    requires hs.NewBucket(op.na, op.src) < |t.buckets| && |t.buckets[hs.NewBucket(op.na, op.src)]| <= NEW_BUCKET_SIZE
    requires WithRef(Noticed(t, op.na, op.src), hs.NewBucket(op.na, op.src), NetAddressKey(op.na)) == t'
    ensures IsStep(hs, t, op, t')
  {
    if Inv(hs, t) {
      UnknownIsAdded(hs, t, op);
    }
  }

  lemma NewcomerJoins(n: nat)
    requires n <= NEW_BUCKET_SIZE
    ensures IsStep(CROWDED, Filled(n), NewcomerOp(n), Filled(n + 1))
  {
    NamesAreMany(n);
    NewcomerIsPut(n);
    assert |Filled(n).buckets[0]| == n && Name(n) !in Filled(n).index;
    UnknownIsStep(CROWDED, Filled(n), NewcomerOp(n), Filled(n + 1));
  }

  /** Sixty-five addresses for the same bucket, one after the other, are all taken in. */
  lemma BucketOf65()
    ensures
      var run, ops := seq(66, n requires 0 <= n < 66 => Filled(n)), seq(65, n requires 0 <= n < 65 => NewcomerOp(n));
      IsRun(CROWDED, run, ops) && run[0] == EMPTY && |run[65].buckets[0]| == NEW_BUCKET_SIZE + 1
  {
    var run, ops := seq(66, n requires 0 <= n < 66 => Filled(n)), seq(65, n requires 0 <= n < 65 => NewcomerOp(n));
    forall i | 0 <= i < |ops| ensures IsStep(CROWDED, run[i], ops[i], run[i + 1]) {
      NewcomerJoins(i);
    }
    NamesAreMany(65);
    assert Names(0) == {} && NoBuckets()[0 := {}] == NoBuckets();
    assert Filled(0).index == map[];
  }

  // ---------- What an operation can forget ----------

  lemma ExpiredWere(t: Tables, b: nat, now: int, victim: set<string>, k: string)
    requires b < |t.buckets| && t.buckets[b] <= t.index.Keys && IsVictim(t, b, now, victim)
    requires k in t.index && k !in Expire(t, b, now, victim).index
    ensures k in t.buckets[b] && t.index[k].refs == 1 && (t.index[k].IsBad(now) || victim == {k})
  {
  }

  lemma MovedKeepsKeys(hs: Hasher, t: Tables, k: string)
    requires Inv(hs, t) && k in t.index && !t.index[k].tried
    ensures Moved(hs, t, k).index.Keys == t.index.Keys
  {
    NewEntryHasHome(hs, t, k);
    var i, nb := MovedCases(hs, t, k);
    var b := hs.TriedBucket(t.index[k].na);
    if |t.tried[b]| >= TRIED_BUCKET_SIZE { assert t.tried[b][i] in t.tried[b]; }
  }

  lemma PromoteKeepsKeys(hs: Hasher, t: Tables, na: NetAddr, now: int)
    requires Inv(hs, t)
    ensures Promote(hs, t, na, now).index.Keys == t.index.Keys
  {
    var k := NetAddressKey(na);
    if k in t.index && !t.index[k].tried {
      RecordedKeepsInv(hs, t, k, now);
      var e := t.index[k].(lastSuccess := now, lastAttempt := now, attempts := 0);
      MovedKeepsKeys(hs, t.(index := t.index[k := e]), k);
    }
  }

  lemma ForgottenByInsert(t: Tables, b: nat, key: string, now: int, victim: set<string>, k: string)
    requires b < |t.buckets| && t.buckets[b] <= t.index.Keys && key in t.index
    requires key !in t.buckets[b] && |t.buckets[b]| > NEW_BUCKET_SIZE ==> IsVictim(t, b, now, victim)
    requires k in t.index && k !in AddToBucket(t, b, key, now, victim).index
    ensures k != key && k in t.buckets[b] && |t.buckets[b]| > NEW_BUCKET_SIZE
    ensures t.index[k].refs == 1 && (t.index[k].IsBad(now) || victim == {k})
  {
    ExpiredWere(t, b, now, victim, k);
  }

  lemma NotedKeepsOthers(hs: Hasher, t: Tables, na: NetAddr, src: NetAddr, draw: nat)
    requires Inv(hs, t)
    ensures
      var t' := Noted(hs, t, na, src, draw).0;
      && t.index.Keys <= t'.index.Keys && t'.buckets == t.buckets
      && forall k :: k in t.index && k != NetAddressKey(na) ==> t'.index[k] == t.index[k]
  {
    var k := NetAddressKey(na);
    if hs.routable(na.endpoint) {
      if k in t.index {
        assert Noted(hs, t, na, src, draw).0 == t.(index := t.index[k := Refreshed(t.index[k], na)]);
      } else {
        assert Noted(hs, t, na, src, draw).0.index ==
          t.index[k := Entry(na, src, 0, ZERO_TIME, ZERO_TIME, 0, false)];
      }
    }
  }

  /** An address leaves the index only when another is added to a full bucket that held it, by its last
      reference, and it was bad or the eldest of the rest. */
  lemma ForgottenOnlyByExpiry(hs: Hasher, t: Tables, op: Op, k: string)
    requires Inv(hs, t) && Legal(hs, t, op) && k in t.index && k !in Apply(hs, t, op).index
    ensures op.Add? && k != NetAddressKey(op.na) && !t.index[k].tried && t.index[k].refs == 1
    ensures
      var b := hs.NewBucket(op.na, op.src);
      k in t.buckets[b] && |t.buckets[b]| == NEW_BUCKET_SIZE + 1 && (t.index[k].IsBad(op.now) || op.victim == {k})
  {
    match op
    case MarkGood(na, now) => PromoteKeepsKeys(hs, t, na, now);
    case Add(na, src, draw, now, victim) =>
      NotedKeepsInv(hs, t, na, src, draw);
      NotedKeepsOthers(hs, t, na, src, draw);
      var (t', go) := Noted(hs, t, na, src, draw);
      if go { ForgottenByInsert(t', hs.NewBucket(na, src), NetAddressKey(na), now, victim, k); }
    case _ =>
  }

  /** A tried address is never forgotten: whatever the operation, it is still in the index. */
  lemma TriedIsKept(hs: Hasher, t: Tables, op: Op, k: string)
    requires Inv(hs, t) && Legal(hs, t, op) && k in t.index && t.index[k].tried
    ensures k in Apply(hs, t, op).index
  {
    if k !in Apply(hs, t, op).index {
      ForgottenOnlyByExpiry(hs, t, op, k);
    }
  }

  lemma MovedIsTried(hs: Hasher, t: Tables, k: string)
    requires Inv(hs, t) && k in t.index && !t.index[k].tried
    ensures k in Moved(hs, t, k).index && Moved(hs, t, k).index[k].tried
    ensures NetAddressKey(Moved(hs, t, k).index[k].na) == k
  {
    NewEntryHasHome(hs, t, k);
    var i, nb := MovedCases(hs, t, k);
    var b := hs.TriedBucket(t.index[k].na);
    if |t.tried[b]| >= TRIED_BUCKET_SIZE { assert t.tried[b][i] in t.tried[b]; }
  }

  /** After Good, a known address is in the tried table, and no address has been gained or lost. */
  lemma GoodIsTried(hs: Hasher, t: Tables, na: NetAddr, now: int)
    requires Inv(hs, t) && NetAddressKey(na) in t.index
    ensures
      var t', k := Promote(hs, t, na, now), NetAddressKey(na);
      && t'.index.Keys == t.index.Keys && t'.nNew + t'.nTried == t.nNew + t.nTried
      && |t'.tried| == TRIED_BUCKET_COUNT
      && t'.index[k].tried && k in t'.tried[hs.TriedBucket(t'.index[k].na)]
  {
    var k := NetAddressKey(na);
    PromoteKeepsInv(hs, t, na, now);
    PromoteKeepsKeys(hs, t, na, now);
    if !t.index[k].tried {
      RecordedKeepsInv(hs, t, k, now);
      var e := t.index[k].(lastSuccess := now, lastAttempt := now, attempts := 0);
      MovedIsTried(hs, t.(index := t.index[k := e]), k);
    }
    CountsSplitIndex(t.index);
    CountsSplitIndex(Promote(hs, t, na, now).index);
  }
}
