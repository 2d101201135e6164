/**
 What the address tables promise: every operation keeps the invariant, so every run does;
 nothing is lost except by expiry; and the branches the code guards against cannot be taken.
 */
module AddrTableProofs {
  import opened AddrTables

  // ---------- Bucket membership and counting ----------

  lemma HomesOfAdd(buckets: seq<set<string>>, b: nat, k: string, q: string)
    requires b < |buckets|
    ensures Homes(buckets[b := buckets[b] + {k}], q) == Homes(buckets, q) + (if q == k then {b} else {})
  {}

  lemma HomesOfDrop(buckets: seq<set<string>>, b: nat, ks: set<string>, q: string)
    requires b < |buckets|
    ensures Homes(buckets[b := buckets[b] - ks], q) == Homes(buckets, q) - (if q in ks then {b} else {})
  {}

  lemma HomesOfPrefix(buckets: seq<set<string>>, k: string, n: nat)
    requires n < |buckets|
    ensures |Homes(buckets[..0], k)| == 0
    ensures |Homes(buckets[..n + 1], k)| == |Homes(buckets[..n], k)| + (if k in buckets[n] then 1 else 0)
  {
    assert Homes(buckets[..0], k) == {};
    assert Homes(buckets[..n + 1], k) == Homes(buckets[..n], k) + (if k in buckets[n] then {n} else {});
  }

  lemma TwoHomes(buckets: seq<set<string>>, k: string, b: nat, c: nat)
    requires b < |buckets| && c < |buckets| && b != c && k in buckets[b] && k in buckets[c]
    ensures |Homes(buckets, k)| >= 2
  {
    assert {b, c} <= Homes(buckets, k);
    assert |Homes(buckets, k)| == |Homes(buckets, k) - {b, c}| + |{b, c}|;
  }

  lemma EmptyInv(hs: Hasher)
    ensures Inv(hs, EMPTY)
  {
    assert NewKeys(EMPTY.index) == {} == TriedKeys(EMPTY.index);
  }

  /** Entries may change as long as each keeps its key and whether it is tried. */
  predicate SameClasses(index: map<string, Entry>, index': map<string, Entry>) {
    && index.Keys == index'.Keys
    && forall k :: k in index ==> index'[k].na.endpoint == index[k].na.endpoint && index'[k].tried == index[k].tried
  }

  lemma TriedFrame(hs: Hasher, t: Tables, t': Tables)
    requires TriedInv(hs, t) && t'.tried == t.tried && SameClasses(t.index, t'.index)
    ensures TriedInv(hs, t')
  {
  }

  lemma CountFrame(t: Tables, t': Tables)
    requires SameClasses(t.index, t'.index)
    ensures NewKeys(t'.index) == NewKeys(t.index) && TriedKeys(t'.index) == TriedKeys(t.index)
  {
  }

  // ---------- Expiry ----------

  /** Dropping a single reference, spelt out. */
  lemma DropRefsOne(t: Tables, b: nat, k: string)
    requires b < |t.buckets| && k in t.buckets[b] && t.buckets[b] <= t.index.Keys
    ensures DropRefs(t, b, {k}) ==
            t.(index := if t.index[k].refs == 1 then t.index - {k}
                        else t.index[k := t.index[k].(refs := t.index[k].refs - 1)],
               buckets := t.buckets[b := t.buckets[b] - {k}],
               nNew := if t.index[k].refs == 1 then t.nNew - 1 else t.nNew)
  {
    assert LastRefs(t, {k}) == if t.index[k].refs == 1 then {k} else {};
  }

  lemma DropRefsNone(t: Tables, b: nat)
    requires b < |t.buckets| && t.buckets[b] <= t.index.Keys
    ensures DropRefs(t, b, {}) == t
  {
    assert LastRefs(t, {}) == {};
    assert t.buckets[b] - {} == t.buckets[b];
    assert DropRefs(t, b, {}).index == t.index;
  }

  /** Dropping references one key at a time comes to dropping them together. */
  lemma DropRefsMore(t: Tables, b: nat, ks: set<string>, k: string)
    requires b < |t.buckets| && ks <= t.buckets[b] <= t.index.Keys && k in t.buckets[b] - ks
    requires DropRefs(t, b, ks).buckets[b] <= DropRefs(t, b, ks).index.Keys
    ensures DropRefs(DropRefs(t, b, ks), b, {k}) == DropRefs(t, b, ks + {k})
  {
    var t1 := DropRefs(t, b, ks);
    assert LastRefs(t, ks + {k}) == LastRefs(t, ks) + LastRefs(t1, {k});
    assert t.buckets[b] - ks - {k} == t.buckets[b] - (ks + {k});
  }

  lemma DropRefsIndex(t: Tables, b: nat, ks: set<string>)
    requires IndexInv(t) && NewInv(t) && b < |t.buckets| && ks <= t.buckets[b]
    ensures IndexInv(DropRefs(t, b, ks))
    ensures forall k :: k in ks ==> t.index[k].refs >= 1
  {
    var t' := DropRefs(t, b, ks);
    forall q | q in t.index
      ensures |Homes(t'.buckets, q)| == |Homes(t.buckets, q)| - (if q in ks then 1 else 0)
    {
      HomesOfDrop(t.buckets, b, ks, q);
      assert q in ks ==> b in Homes(t.buckets, q);
    }
  }

  lemma DropRefsNew(t: Tables, b: nat, ks: set<string>)
    requires IndexInv(t) && NewInv(t) && b < |t.buckets| && ks <= t.buckets[b]
    ensures NewInv(DropRefs(t, b, ks))
  {
    var t' := DropRefs(t, b, ks);
    forall c | 0 <= c < |t'.buckets| ensures t'.buckets[c] <= t'.index.Keys {
      forall q | q in t'.buckets[c] ensures q in t'.index {
        if q in ks { TwoHomes(t.buckets, q, b, c); }
      }
    }
    assert |t'.buckets[b]| <= |t.buckets[b]|;
  }

  lemma DropRefsTried(hs: Hasher, t: Tables, b: nat, ks: set<string>)
    requires TriedInv(hs, t) && b < |t.buckets| && ks <= t.buckets[b] <= t.index.Keys
    requires forall k :: k in ks ==> !t.index[k].tried
    ensures TriedInv(hs, DropRefs(t, b, ks))
  {
  }

  lemma DropRefsCounts(t: Tables, b: nat, ks: set<string>)
    requires b < |t.buckets| && ks <= t.buckets[b] <= t.index.Keys
    requires forall k :: k in ks ==> !t.index[k].tried
    ensures |NewKeys(DropRefs(t, b, ks).index)| - DropRefs(t, b, ks).nNew == |NewKeys(t.index)| - t.nNew
    ensures TriedKeys(DropRefs(t, b, ks).index) == TriedKeys(t.index)
  {
    var t' := DropRefs(t, b, ks);
    var gone := LastRefs(t, ks);
    assert gone <= NewKeys(t.index);
    assert NewKeys(t'.index) == NewKeys(t.index) - gone;
  }

  /** Dropping references from one bucket keeps the invariant, whatever set of its members is dropped. */
  lemma DropRefsKeepsInv(hs: Hasher, t: Tables, b: nat, ks: set<string>, pending: set<string>)
    requires InvBut(hs, t, pending) && b < NEW_BUCKET_COUNT && ks <= t.buckets[b] && ks !! pending
    ensures InvBut(hs, DropRefs(t, b, ks), pending)
  {
    DropRefsIndex(t, b, ks);
    DropRefsNew(t, b, ks);
    DropRefsTried(hs, t, b, ks);
    DropRefsCounts(t, b, ks);
  }

  /** What makes it safe to drop the entry of a new bucket: no other table holds it once its last
      reference goes. */
  lemma Releasable(hs: Hasher, t: Tables, b: nat, k: string, pending: set<string>)
    requires InvBut(hs, t, pending) && b < NEW_BUCKET_COUNT && k in t.buckets[b] && k !in pending
    ensures t.index[k].refs == 1 ==> forall c :: 0 <= c < |t.buckets| && k in t.buckets[c] ==> c == b
    ensures forall c :: 0 <= c < |t.tried| ==> k !in t.tried[c]
  {
    forall c | 0 <= c < |t.buckets| && k in t.buckets[c] && c != b ensures t.index[k].refs >= 2 {
      TwoHomes(t.buckets, k, b, c);
    }
    assert b in Homes(t.buckets, k);
  }

  /** The state of the walk over bucket `b`: of the entries in `done`, the bad ones are in `bad` and
      `eldest` holds an eldest of the others. */
  ghost predicate Walked(t: Tables, b: nat, now: int, done: set<string>, bad: set<string>, eldest: set<string>)
    requires b < |t.buckets| && t.buckets[b] <= t.index.Keys
  {
    && bad <= done <= t.buckets[b]
    && (forall k :: k in done ==> (k in bad <==> t.index[k].IsBad(now)))
    && (if done <= bad then eldest == {}
        else
          exists v ::
            && v in done - bad && eldest == {v}
            && forall u :: u in done - bad ==> t.index[v].na.timestamp <= t.index[u].na.timestamp)
  }

  lemma WalkBad(t: Tables, b: nat, now: int, done: set<string>, bad: set<string>, eldest: set<string>, k: string)
    requires b < |t.buckets| && t.buckets[b] <= t.index.Keys && Walked(t, b, now, done, bad, eldest)
    requires k in t.buckets[b] && t.index[k].IsBad(now) && k !in done
    ensures Walked(t, b, now, done + {k}, bad + {k}, eldest)
  {
    assert done + {k} - (bad + {k}) == done - bad;
  }

  lemma WalkGood(t: Tables, b: nat, now: int, done: set<string>, bad: set<string>, eldest: set<string>, k: string)
    requires b < |t.buckets| && t.buckets[b] <= t.index.Keys && Walked(t, b, now, done, bad, eldest)
    requires k in t.buckets[b] && !t.index[k].IsBad(now) && k !in done
    ensures
      if forall v :: v in eldest ==> t.index[k].na.timestamp <= t.index[v].na.timestamp
      then Walked(t, b, now, done + {k}, bad, {k})
      else Walked(t, b, now, done + {k}, bad, eldest)
  {
    assert done + {k} - bad == done - bad + {k};
    if !(done <= bad) {
      var v :| v in done - bad && eldest == {v}
        && forall u :: u in done - bad ==> t.index[v].na.timestamp <= t.index[u].na.timestamp;
      if t.index[k].na.timestamp > t.index[v].na.timestamp {
        assert v in eldest;
      }
    }
  }

  /** After the walk, dropping the eldest entry it found, if any, completes the expiry. */
  lemma WalkEnds(t: Tables, b: nat, now: int, bad: set<string>, eldest: set<string>)
    requires IndexInv(t) && NewInv(t) && b < |t.buckets| && Walked(t, b, now, t.buckets[b], bad, eldest)
    ensures IsVictim(t, b, now, eldest)
    ensures eldest == {} ==> Expire(t, b, now, eldest) == DropRefs(t, b, bad)
    ensures forall v :: eldest == {v} ==>
      && v in DropRefs(t, b, bad).buckets[b] && DropRefs(t, b, bad).buckets[b] <= DropRefs(t, b, bad).index.Keys
      && Expire(t, b, now, eldest) == DropRefs(DropRefs(t, b, bad), b, {v})
  {
    assert bad == BadKeys(t, b, now);
    if eldest == {} {
      assert bad + eldest == bad;
    } else {
      var v :| v in t.buckets[b] - bad && eldest == {v};
      DropRefsNew(t, b, bad);
      DropRefsMore(t, b, bad, v);
    }
  }

  lemma OneMore(all: set<string>, done: set<string>, todo: set<string>, k: string)
    requires done + todo == all && done !! todo && k in todo
    ensures (done + {k}) + (todo - {k}) == all && (done + {k}) !! (todo - {k}) && k in all && k !in done
  {
  }

  // ---------- updateAddress ----------

  lemma ExpireMakesRoom(t: Tables, b: nat, now: int, victim: set<string>)
    requires b < |t.buckets| && t.buckets[b] <= t.index.Keys && IsVictim(t, b, now, victim)
    ensures BadKeys(t, b, now) + victim <= t.buckets[b]
    ensures |t.buckets[b]| > 0 ==> |Expire(t, b, now, victim).buckets[b]| < |t.buckets[b]|
  {
    var dropped := BadKeys(t, b, now) + victim;
    if |t.buckets[b]| > 0 {
      assert dropped != {};
      assert |t.buckets[b] - dropped| == |t.buckets[b]| - |dropped|;
    }
  }

  lemma ExpireKeepsOthers(t: Tables, b: nat, now: int, victim: set<string>, k: string)
    requires b < |t.buckets| && t.buckets[b] <= t.index.Keys && IsVictim(t, b, now, victim)
    requires k in t.index && k !in t.buckets[b]
    ensures k in Expire(t, b, now, victim).index && Expire(t, b, now, victim).index[k] == t.index[k]
  {
    ExpireMakesRoom(t, b, now, victim);
  }

  lemma WithRefIndex(t: Tables, b: nat, k: string)
    requires IndexInv(t) && k in t.index && t.index[k].refs < NEW_BUCKETS_PER_ADDRESS
    requires b < |t.buckets| && k !in t.buckets[b]
    ensures IndexInv(WithRef(t, b, k))
  {
    var t' := WithRef(t, b, k);
    forall q | q in t.index ensures |Homes(t'.buckets, q)| == |Homes(t.buckets, q)| + (if q == k then 1 else 0) {
      HomesOfAdd(t.buckets, b, k, q);
    }
  }

  lemma WithRefNew(t: Tables, b: nat, k: string)
    requires NewInv(t) && k in t.index && b < |t.buckets| && |t.buckets[b]| <= NEW_BUCKET_SIZE
    ensures NewInv(WithRef(t, b, k))
  {
    assert |t.buckets[b] + {k}| <= |t.buckets[b]| + 1;
  }

  /** One more reference, from a bucket with room, for an entry that is not tried. */
  lemma WithRefKeepsInv(hs: Hasher, t: Tables, b: nat, k: string)
    requires InvBut(hs, t, {k}) && k in t.index && !t.index[k].tried
    requires t.index[k].refs < NEW_BUCKETS_PER_ADDRESS
    requires b < NEW_BUCKET_COUNT && k !in t.buckets[b] && |t.buckets[b]| <= NEW_BUCKET_SIZE
    ensures Inv(hs, WithRef(t, b, k))
  {
    var t' := WithRef(t, b, k);
    WithRefIndex(t, b, k);
    WithRefNew(t, b, k);
    TriedFrame(hs, t, t');
    CountFrame(t, t');
  }

  lemma PendingSettled(hs: Hasher, t: Tables, b: nat, k: string)
    requires InvBut(hs, t, {k}) && b < NEW_BUCKET_COUNT && k in t.buckets[b] && !t.index[k].tried
    ensures Inv(hs, t)
  {
    assert b in Homes(t.buckets, k);
  }

  lemma ExpireKeepsInv(hs: Hasher, t: Tables, b: nat, now: int, victim: set<string>, pending: set<string>)
    requires InvBut(hs, t, pending) && b < NEW_BUCKET_COUNT && IsVictim(t, b, now, victim)
    requires t.buckets[b] !! pending
    ensures InvBut(hs, Expire(t, b, now, victim), pending)
  {
    ExpireMakesRoom(t, b, now, victim);
    DropRefsKeepsInv(hs, t, b, BadKeys(t, b, now) + victim, pending);
  }

  lemma AddToBucketKeepsInv(hs: Hasher, t: Tables, b: nat, k: string, now: int, victim: set<string>)
    requires InvBut(hs, t, {k}) && k in t.index && !t.index[k].tried
    requires t.index[k].refs < NEW_BUCKETS_PER_ADDRESS && b < NEW_BUCKET_COUNT
    requires k !in t.buckets[b] && |t.buckets[b]| > NEW_BUCKET_SIZE ==> IsVictim(t, b, now, victim)
    ensures Inv(hs, AddToBucket(t, b, k, now, victim))
  {
    if k in t.buckets[b] {
      PendingSettled(hs, t, b, k);
    } else if |t.buckets[b]| > NEW_BUCKET_SIZE {
      ExpireKeepsInv(hs, t, b, now, victim, {k});
      ExpireMakesRoom(t, b, now, victim);
      WithRefKeepsInv(hs, Expire(t, b, now, victim), b, k);
    } else {
      WithRefKeepsInv(hs, t, b, k);
    }
  }

  lemma TouchIndex(t: Tables, k: string, e: Entry)
    requires IndexInv(t) && NewInv(t) && k in t.index && e.na.endpoint == k && e.refs == t.index[k].refs
    ensures IndexInv(t.(index := t.index[k := e])) && NewInv(t.(index := t.index[k := e]))
  {
  }

  /** Replacing what is remembered of an entry, but not its key, references or table, keeps the invariant. */
  lemma TouchKeepsInv(hs: Hasher, t: Tables, k: string, e: Entry)
    requires Inv(hs, t) && k in t.index
    requires e.na.endpoint == k && e.refs == t.index[k].refs && e.tried == t.index[k].tried
    ensures Inv(hs, t.(index := t.index[k := e]))
  {
    var t' := t.(index := t.index[k := e]);
    TouchIndex(t, k, e);
    TriedFrame(hs, t, t');
    CountFrame(t, t');
  }

  lemma NewEntryTables(hs: Hasher, t: Tables, k: string, e: Entry)
    requires IndexInv(t) && NewInv(t) && TriedInv(hs, t)
    requires k !in t.index && e.na.endpoint == k && e.refs == 0 && !e.tried
    ensures IndexInv(t.(index := t.index[k := e]))
    ensures NewInv(t.(index := t.index[k := e]))
    ensures TriedInv(hs, t.(index := t.index[k := e]))
  {
    assert Homes(t.buckets, k) == {};
  }

  lemma NewEntryCounts(t: Tables, k: string, e: Entry)
    requires k !in t.index && !e.tried
    ensures |NewKeys(t.index[k := e])| == |NewKeys(t.index)| + 1
    ensures TriedKeys(t.index[k := e]) == TriedKeys(t.index)
  {
    assert NewKeys(t.index[k := e]) == NewKeys(t.index) + {k};
  }

  lemma NewEntryInvBut(hs: Hasher, t: Tables, k: string, e: Entry)
    requires Inv(hs, t) && k !in t.index && e.na.endpoint == k && e.refs == 0 && !e.tried
    ensures InvBut(hs, t.(index := t.index[k := e], nNew := t.nNew + 1), {k})
  {
    NewEntryTables(hs, t, k, e);
    NewEntryCounts(t, k, e);
  }

  lemma NotedKeepsInv(hs: Hasher, t: Tables, na: NetAddr, src: NetAddr, draw: nat)
    requires Inv(hs, t)
    ensures
      var k, (t', go) := NetAddressKey(na), Noted(hs, t, na, src, draw);
      if go then
        && InvBut(hs, t', {k}) && k in t'.index && !t'.index[k].tried && t'.index[k].refs < NEW_BUCKETS_PER_ADDRESS
      else Inv(hs, t')
  {
    var k := NetAddressKey(na);
    if hs.routable(na.endpoint) {
      if k in t.index {
        TouchKeepsInv(hs, t, k, Refreshed(t.index[k], na));
      } else {
        NewEntryInvBut(hs, t, k, Entry(na, src, 0, ZERO_TIME, ZERO_TIME, 0, false));
      }
    }
  }

  lemma UpdateKeepsInv(
    hs: Hasher, t: Tables, na: NetAddr, src: NetAddr, draw: nat, now: int, victim: set<string>)
    requires Inv(hs, t) && UpdateLegal(hs, t, na, src, draw, now, victim)
    ensures Inv(hs, Update(hs, t, na, src, draw, now, victim))
  {
    var (t', go) := Noted(hs, t, na, src, draw);
    NotedKeepsInv(hs, t, na, src, draw);
    if go { AddToBucketKeepsInv(hs, t', hs.NewBucket(na, src), NetAddressKey(na), now, victim); }
  }

  // ---------- Good ----------

  lemma {:induction false} FirstEldestFrame(index: map<string, Entry>, index': map<string, Entry>, l: seq<string>)
    requires l != [] && forall k :: k in l ==> k in index && k in index' && index'[k].na == index[k].na
    ensures FirstEldest(index', l) == FirstEldest(index, l)
  {
    if |l| > 1 { FirstEldestFrame(index, index', l[..|l| - 1]); }
  }

  /** pickTried finds an eldest entry, and the first of those. */
  lemma {:induction false} FirstEldestIsFirst(index: map<string, Entry>, l: seq<string>)
    requires l != [] && forall k :: k in l ==> k in index
    ensures
      var i := FirstEldest(index, l);
      && (forall j :: 0 <= j < |l| ==> index[l[i]].na.timestamp <= index[l[j]].na.timestamp)
      && (forall j :: 0 <= j < i ==> index[l[i]].na.timestamp < index[l[j]].na.timestamp)
  {
    if |l| > 1 {
      var front := l[..|l| - 1];
      FirstEldestIsFirst(index, front);
      assert forall j :: 0 <= j < |front| ==> front[j] == l[j];
    }
  }

  lemma HomesOfPulledOut(t: Tables, k: string, q: string)
    requires k in t.index
    ensures Homes(PulledOut(t, k).buckets, q) == if q == k then {} else Homes(t.buckets, q)
  {
  }

  lemma PulledOutIndex(t: Tables, k: string)
    requires IndexInv(t) && k in t.index
    ensures IndexInv(PulledOut(t, k)) && PulledOut(t, k).index[k].refs == 0
  {
    forall q | q in t.index
      ensures Homes(PulledOut(t, k).buckets, q) == if q == k then {} else Homes(t.buckets, q)
    {
      HomesOfPulledOut(t, k, q);
    }
  }

  lemma PulledOutNew(t: Tables, k: string)
    requires NewInv(t) && k in t.index
    ensures NewInv(PulledOut(t, k))
  {
    forall b | 0 <= b < |t.buckets| ensures |PulledOut(t, k).buckets[b]| <= |t.buckets[b]| {
      assert |t.buckets[b] - {k}| <= |t.buckets[b]|;
    }
  }

  lemma PulledOutInvBut(hs: Hasher, t: Tables, k: string)
    requires Inv(hs, t) && k in t.index && !t.index[k].tried
    ensures InvBut(hs, PulledOut(t, k), {k}) && PulledOut(t, k).index[k].refs == 0
  {
    PulledOutIndex(t, k);
    PulledOutNew(t, k);
    TriedFrame(hs, t, PulledOut(t, k));
    CountFrame(t, PulledOut(t, k));
  }

  lemma PushedTried(hs: Hasher, t: Tables, k: string)
    requires TriedInv(hs, t) && k in t.index && !t.index[k].tried && t.index[k].na.endpoint == k
    requires |t.tried[hs.TriedBucket(t.index[k].na)]| < TRIED_BUCKET_SIZE
    ensures TriedInv(hs, Pushed(t, k, hs.TriedBucket(t.index[k].na)))
  {
  }

  lemma ClassFlip(index: map<string, Entry>, k: string, e: Entry)
    requires k in index && !index[k].tried && e.tried
    ensures |NewKeys(index[k := e])| == |NewKeys(index)| - 1
    ensures |TriedKeys(index[k := e])| == |TriedKeys(index)| + 1
  {
    assert NewKeys(index[k := e]) == NewKeys(index) - {k};
    assert TriedKeys(index[k := e]) == TriedKeys(index) + {k};
  }

  lemma PushedKeepsInv(hs: Hasher, t: Tables, k: string)
    requires InvBut(hs, t, {k}) && k in t.index && !t.index[k].tried && t.index[k].refs == 0
    requires |t.tried[hs.TriedBucket(t.index[k].na)]| < TRIED_BUCKET_SIZE
    ensures Inv(hs, Pushed(t, k, hs.TriedBucket(t.index[k].na)))
  {
    var t' := Pushed(t, k, hs.TriedBucket(t.index[k].na));
    PushedTried(hs, t, k);
    ClassFlip(t.index, k, t'.index[k]);
    TouchIndex(t, k, t'.index[k]);
  }

  lemma SwappedTried(hs: Hasher, t: Tables, k: string, i: nat, nb: nat)
    requires TriedInv(hs, t) && k in t.index && !t.index[k].tried && nb < |t.buckets|
    requires i < |t.tried[hs.TriedBucket(t.index[k].na)]|
    ensures TriedInv(hs, Swapped(t, k, hs.TriedBucket(t.index[k].na), i, nb))
  {
    var b := hs.TriedBucket(t.index[k].na);
    var t' := Swapped(t, k, b, i, nb);
    var r := t.tried[b][i];
    assert r != k;
    forall q | q in t.tried[b] && q != r ensures q in t'.tried[b] {
      var j :| 0 <= j < |t.tried[b]| && t.tried[b][j] == q;
      assert t'.tried[b][j] == q;
    }
    assert t'.tried[b][i] == k;
  }

  lemma SwappedIndex(t: Tables, k: string, b: nat, i: nat, nb: nat)
    requires IndexInv(t) && NewInv(t) && k in t.index && nb < |t.buckets| && |t.buckets[nb]| <= NEW_BUCKET_SIZE
    requires b < |t.tried| && i < |t.tried[b]| && t.tried[b][i] in t.index && t.tried[b][i] != k
    requires t.index[t.tried[b][i]].refs == 0
    ensures IndexInv(Swapped(t, k, b, i, nb)) && NewInv(Swapped(t, k, b, i, nb))
  {
    var r := t.tried[b][i];
    var t1 := t.(index := t.index[k := t.index[k].(tried := true)]);
    TouchIndex(t, k, t1.index[k]);
    assert Homes(t.buckets, r) == {};
    assert nb !in Homes(t.buckets, r);
    WithRefIndex(t1, nb, r);
    WithRefNew(t1, nb, r);
    var t2 := WithRef(t1, nb, r);
    TouchIndex(t2, r, t2.index[r].(tried := false));
  }

  lemma SwappedCounts(t: Tables, k: string, b: nat, i: nat, nb: nat)
    requires k in t.index && !t.index[k].tried && nb < |t.buckets|
    requires b < |t.tried| && i < |t.tried[b]| && t.tried[b][i] in t.index && t.index[t.tried[b][i]].tried
    ensures |NewKeys(Swapped(t, k, b, i, nb).index)| == |NewKeys(t.index)|
    ensures |TriedKeys(Swapped(t, k, b, i, nb).index)| == |TriedKeys(t.index)|
  {
    var r := t.tried[b][i];
    var t' := Swapped(t, k, b, i, nb);
    assert NewKeys(t'.index) == NewKeys(t.index) - {k} + {r};
    assert TriedKeys(t'.index) == TriedKeys(t.index) - {r} + {k};
  }

  lemma SwappedKeepsInv(hs: Hasher, t: Tables, k: string, i: nat, nb: nat)
    requires InvBut(hs, t, {k}) && k in t.index && !t.index[k].tried && t.index[k].refs == 0
    requires i < |t.tried[hs.TriedBucket(t.index[k].na)]|
    requires nb < NEW_BUCKET_COUNT && |t.buckets[nb]| <= NEW_BUCKET_SIZE
    ensures Inv(hs, Swapped(t, k, hs.TriedBucket(t.index[k].na), i, nb))
  {
    var b := hs.TriedBucket(t.index[k].na);
    var r := t.tried[b][i];
    assert r in t.tried[b] && r in t.index && t.index[r].tried && r != k;
    SwappedTried(hs, t, k, i, nb);
    SwappedIndex(t, k, b, i, nb);
    SwappedCounts(t, k, b, i, nb);
  }

  /** An entry that is not tried is in some new bucket, so the "wasn't in a bucket" return is dead. */
  lemma NewEntryHasHome(hs: Hasher, t: Tables, k: string)
    requires Inv(hs, t) && k in t.index && !t.index[k].tried
    ensures FirstHome(t.buckets, k, 0) < NEW_BUCKET_COUNT
  {
    var b :| b in Homes(t.buckets, k);
    assert k in t.buckets[b];
  }

  /** The displaced entry goes to a bucket with room: its own, or the one `k` has just left. */
  lemma RoomForDisplaced(hs: Hasher, t: Tables, k: string, r: string)
    requires NewInv(t) && k in t.index && r in t.index && FirstHome(t.buckets, k, 0) < NEW_BUCKET_COUNT
    ensures |PulledOut(t, k).buckets[Landing(hs, t, k, r)]| <= NEW_BUCKET_SIZE
  {
    var home := FirstHome(t.buckets, k, 0);
    assert |t.buckets[home] - {k}| == |t.buckets[home]| - 1;
  }

  lemma SwapMoveKeepsInv(hs: Hasher, t: Tables, k: string, b: nat, i: nat, nb: nat)
    requires Inv(hs, t) && k in t.index && !t.index[k].tried && b == hs.TriedBucket(t.index[k].na)
    requires i < |t.tried[b]| && nb < NEW_BUCKET_COUNT && |PulledOut(t, k).buckets[nb]| <= NEW_BUCKET_SIZE
    ensures Inv(hs, Swapped(PulledOut(t, k), k, b, i, nb))
  {
    PulledOutInvBut(hs, t, k);
    SwappedKeepsInv(hs, PulledOut(t, k), k, i, nb);
  }

  lemma PushMoveKeepsInv(hs: Hasher, t: Tables, k: string, b: nat)
    requires Inv(hs, t) && k in t.index && !t.index[k].tried && b == hs.TriedBucket(t.index[k].na)
    requires |t.tried[b]| < TRIED_BUCKET_SIZE
    ensures Inv(hs, Pushed(PulledOut(t, k), k, b))
  {
    PulledOutInvBut(hs, t, k);
    PushedKeepsInv(hs, PulledOut(t, k), k);
  }

  /** Good's move, once its dead branch is ruled out: append when the tried list has room, else swap. */
  lemma MovedCases(hs: Hasher, t: Tables, k: string) returns (i: nat, nb: nat)
    requires NewInv(t) && TriedInv(hs, t) && k in t.index
    requires FirstHome(t.buckets, k, 0) < NEW_BUCKET_COUNT
    ensures
      var b := hs.TriedBucket(t.index[k].na);
      if |t.tried[b]| < TRIED_BUCKET_SIZE then Moved(hs, t, k) == Pushed(PulledOut(t, k), k, b)
      else
        && i < |t.tried[b]| && nb < NEW_BUCKET_COUNT && |PulledOut(t, k).buckets[nb]| <= NEW_BUCKET_SIZE
        && Moved(hs, t, k) == Swapped(PulledOut(t, k), k, b, i, nb)
  {
    var b := hs.TriedBucket(t.index[k].na);
    i, nb := 0, 0;
    if |t.tried[b]| >= TRIED_BUCKET_SIZE {
      i := FirstEldest(t.index, t.tried[b]);
      nb := Landing(hs, t, k, t.tried[b][i]);
      RoomForDisplaced(hs, t, k, t.tried[b][i]);
    }
  }

  lemma MovedKeepsInv(hs: Hasher, t: Tables, k: string)
    requires Inv(hs, t) && k in t.index && !t.index[k].tried
    ensures Inv(hs, Moved(hs, t, k))
  {
    NewEntryHasHome(hs, t, k);
    var i, nb := MovedCases(hs, t, k);
    var b := hs.TriedBucket(t.index[k].na);
    if |t.tried[b]| < TRIED_BUCKET_SIZE {
      PushMoveKeepsInv(hs, t, k, b);
    } else {
      SwapMoveKeepsInv(hs, t, k, b, i, nb);
    }
  }

  lemma RecordedKeepsInv(hs: Hasher, t: Tables, k: string, now: int)
    requires Inv(hs, t) && k in t.index
    ensures Inv(hs, t.(index := t.index[k := t.index[k].(lastSuccess := now, lastAttempt := now, attempts := 0)]))
  {
    TouchKeepsInv(hs, t, k, t.index[k].(lastSuccess := now, lastAttempt := now, attempts := 0));
  }

  lemma PromoteKeepsInv(hs: Hasher, t: Tables, na: NetAddr, now: int)
    requires Inv(hs, t)
    ensures Inv(hs, Promote(hs, t, na, now))
  {
    var k := NetAddressKey(na);
    if k in t.index {
      var e := t.index[k].(lastSuccess := now, lastAttempt := now, attempts := 0);
      RecordedKeepsInv(hs, t, k, now);
      if !e.tried { MovedKeepsInv(hs, t.(index := t.index[k := e]), k); }
    }
  }

  // ---------- The rest ----------

  lemma AttemptedKeepsInv(hs: Hasher, t: Tables, na: NetAddr, now: int)
    requires Inv(hs, t)
    ensures Inv(hs, Attempted(t, na, now))
  {
    var k := NetAddressKey(na);
    if k in t.index { TouchKeepsInv(hs, t, k, Attempted(t, na, now).index[k]); }
  }

  lemma ConnectedToKeepsInv(hs: Hasher, t: Tables, na: NetAddr, now: int)
    requires Inv(hs, t)
    ensures Inv(hs, ConnectedTo(t, na, now))
  {
    var k := NetAddressKey(na);
    if k in t.index && now > t.index[k].na.timestamp + 1200 {
      TouchKeepsInv(hs, t, k, ConnectedTo(t, na, now).index[k]);
    }
  }

  lemma ServicesSetKeepsInv(hs: Hasher, t: Tables, na: NetAddr, services: set<nat>)
    requires Inv(hs, t)
    ensures Inv(hs, ServicesSet(t, na, services))
  {
    var k := NetAddressKey(na);
    if k in t.index { TouchKeepsInv(hs, t, k, ServicesSet(t, na, services).index[k]); }
  }

  // ---------- GetAddress ----------

  lemma EmptyWhenUncounted(hs: Hasher, t: Tables)
    requires Inv(hs, t) && t.nNew + t.nTried == 0
    ensures t.index.Keys == {}
  {
    assert t.index.Keys == NewKeys(t.index) + TriedKeys(t.index);
  }

  lemma CountedWhenKnown(hs: Hasher, t: Tables)
    requires Inv(hs, t) && t.nNew + t.nTried != 0
    ensures t.index.Keys != {} && (t.nNew > 0 || t.nTried > 0)
  {
    assert NewKeys(t.index) + TriedKeys(t.index) <= t.index.Keys;
  }

  lemma InNewBucket(hs: Hasher, t: Tables, b: nat, k: string)
    requires Inv(hs, t) && b < NEW_BUCKET_COUNT && k in t.buckets[b]
    ensures k in t.index && !t.index[k].tried
  {
    assert b in Homes(t.buckets, k);
  }

  lemma TriedDrawHits(hs: Hasher, t: Tables) returns (b: nat)
    requires TriedInv(hs, t) && TriedKeys(t.index) != {}
    ensures b < TRIED_BUCKET_COUNT && t.tried[b] != []
  {
    var k :| k in TriedKeys(t.index);
    b := hs.TriedBucket(t.index[k].na);
  }

  lemma NewDrawHits(hs: Hasher, t: Tables) returns (b: nat)
    requires Inv(hs, t) && NewKeys(t.index) != {}
    ensures b < NEW_BUCKET_COUNT && t.buckets[b] != {}
  {
    var k :| k in NewKeys(t.index);
    NewEntryHasHome(hs, t, k);
    b := FirstHome(t.buckets, k, 0);
  }

  lemma ModBelow(b: nat, n: nat)
    requires b < n
    ensures b % n == b
  {
  }

  /** The table GetAddress draws from always has an entry: some draw ends its loop. */
  lemma SomeDrawHits(hs: Hasher, t: Tables, coin: bool) returns (d: Draw)
    requires Inv(hs, t) && t.index.Keys != {}
    ensures Hits(t, coin, d)
  {
    assert t.index.Keys == NewKeys(t.index) + TriedKeys(t.index);
    var b;
    if UsesTried(t, coin) {
      b := TriedDrawHits(hs, t);
      ModBelow(b, TRIED_BUCKET_COUNT);
    } else {
      b := NewDrawHits(hs, t);
      ModBelow(b, NEW_BUCKET_COUNT);
    }
    d := Draw(b, 0, true);
  }
}
