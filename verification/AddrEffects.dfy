/**
 What each operation of the address manager leaves behind, entry by entry and bucket by bucket, without
 reference to the functions that compute it.
 */
module AddrEffects {
  import opened AddrTables
  import opened AddrTableProofs
  import opened AddrRuns

  // ---------- Good ----------

  function Recorded(t: Tables, k: string, now: int): Tables
    requires k in t.index
  {
    t.(index := t.index[k := t.index[k].(lastSuccess := now, lastAttempt := now, attempts := 0)])
  }

  /** The tried list an address belongs to. */
  function ListFor(hs: Hasher, t: Tables, k: string): (l: seq<string>)
    requires |t.tried| == TRIED_BUCKET_COUNT && k in t.index
  {
    t.tried[hs.TriedBucket(t.index[k].na)]
  }

  lemma MovedRecords(hs: Hasher, t: Tables, k: string)
    requires Inv(hs, t) && k in t.index && !t.index[k].tried
    ensures k in Moved(hs, t, k).index && Moved(hs, t, k).index[k] == t.index[k].(refs := 0, tried := true)
  {
    NewEntryHasHome(hs, t, k);
    var i, nb := MovedCases(hs, t, k);
    PulledOutIndex(t, k);
    var b := hs.TriedBucket(t.index[k].na);
    if |t.tried[b]| >= TRIED_BUCKET_SIZE {
      assert t.tried[b][i] in t.tried[b];
    }
  }

  /** Good leaves a known address tried, without failed attempts, last attempted and last successful now, and
      otherwise as it was; whether it was tried before makes no difference. */
  lemma GoodRecords(hs: Hasher, t: Tables, na: NetAddr, now: int)
    requires Inv(hs, t) && NetAddressKey(na) in t.index
    ensures
      var k, t' := NetAddressKey(na), Promote(hs, t, na, now);
      k in t'.index && t'.index[k] == Entry(t.index[k].na, t.index[k].src, 0, now, now, 0, true)
  {
    var k := NetAddressKey(na);
    RecordedKeepsInv(hs, t, k, now);
    if !t.index[k].tried {
      MovedRecords(hs, Recorded(t, k, now), k);
    }
  }

  /** The same addresses are known, and those not among `ks` have kept their entries. */
  predicate OthersKept(t: Tables, t': Tables, ks: set<string>) {
    t'.index.Keys == t.index.Keys && forall q :: q in t.index && q !in ks ==> t'.index[q] == t.index[q]
  }

  /** `k` has left every new bucket, the addresses `rs` have joined bucket `nb`, and that is all. */
  predicate Rehoused(t: Tables, t': Tables, k: string, rs: set<string>, nb: nat) {
    && |t'.buckets| == |t.buckets|
    && forall c :: 0 <= c < |t.buckets| ==> t'.buckets[c] == t.buckets[c] - {k} + if c == nb then rs else {}
  }

  lemma TriedIsHomeless(t: Tables, k: string)
    requires IndexInv(t) && k in t.index && t.index[k].refs == 0
    ensures forall c :: 0 <= c < |t.buckets| ==> k !in t.buckets[c]
  {
    assert Homes(t.buckets, k) == {};
    forall c | 0 <= c < |t.buckets| ensures k !in t.buckets[c] {
      assert c !in Homes(t.buckets, k);
    }
  }

  lemma PushTouches(t: Tables, k: string, b: nat)
    requires k in t.index && b < |t.tried|
    ensures
      var t' := Pushed(PulledOut(t, k), k, b);
      OthersKept(t, t', {k}) && Rehoused(t, t', k, {}, 0) && t'.tried == t.tried[b := t.tried[b] + [k]]
  {
  }

  lemma MovedWithRoom(hs: Hasher, t: Tables, k: string)
    requires Inv(hs, t) && k in t.index && !t.index[k].tried && |ListFor(hs, t, k)| < TRIED_BUCKET_SIZE
    ensures Moved(hs, t, k) == Pushed(PulledOut(t, k), k, hs.TriedBucket(t.index[k].na))
  {
    NewEntryHasHome(hs, t, k);
  }

  /** What holds of the tables with the success recorded holds of those before. */
  lemma BeforeRecording(t: Tables, k: string, now: int, t': Tables, ks: set<string>, rs: set<string>, nb: nat)
    requires k in t.index && k in ks
    requires OthersKept(Recorded(t, k, now), t', ks) && Rehoused(Recorded(t, k, now), t', k, rs, nb)
    ensures OthersKept(t, t', ks) && Rehoused(t, t', k, rs, nb)
  {
  }

  /** Good on an address that is tried already moves nothing. */
  lemma GoodStays(hs: Hasher, t: Tables, na: NetAddr, now: int)
    requires Inv(hs, t) && NetAddressKey(na) in t.index && t.index[NetAddressKey(na)].tried
    ensures
      var k, t' := NetAddressKey(na), Promote(hs, t, na, now);
      OthersKept(t, t', {k}) && Rehoused(t, t', k, {}, 0) && t'.tried == t.tried
  {
    TriedIsHomeless(t, NetAddressKey(na));
  }

  /** While its list has room, Good moves an address from its new buckets to the end of the list, and touches
      no other address. */
  lemma GoodAppends(hs: Hasher, t: Tables, na: NetAddr, now: int)
    requires Inv(hs, t) && NetAddressKey(na) in t.index && !t.index[NetAddressKey(na)].tried
    requires |ListFor(hs, t, NetAddressKey(na))| < 256
    ensures
      var k, t' := NetAddressKey(na), Promote(hs, t, na, now);
      && OthersKept(t, t', {k}) && Rehoused(t, t', k, {}, 0)
      && t'.tried == t.tried[hs.TriedBucket(t.index[k].na) := ListFor(hs, t, k) + [k]]
  {
    var k := NetAddressKey(na);
    var u := Recorded(t, k, now);
    RecordedKeepsInv(hs, t, k, now);
    MovedWithRoom(hs, u, k);
    PushTouches(u, k, hs.TriedBucket(t.index[k].na));
    BeforeRecording(t, k, now, Promote(hs, t, na, now), {k}, {}, 0);
  }

  /** The entry at place `i` of a list is its eldest, and the first of those equally old. */
  predicate EldestAt(t: Tables, l: seq<string>, i: nat) {
    && i < |l| && (forall k :: k in l ==> k in t.index)
    && (forall j :: 0 <= j < |l| ==> t.index[l[i]].na.timestamp <= t.index[l[j]].na.timestamp)
    && (forall j :: 0 <= j < i ==> t.index[l[i]].na.timestamp < t.index[l[j]].na.timestamp)
  }

  /** The bucket for an entry that gives way to `k`: its own if that holds fewer than 64 others, and else the
      first that held `k`. */
  predicate LandsIn(hs: Hasher, t: Tables, k: string, r: string, nb: nat)
    requires |t.buckets| == NEW_BUCKET_COUNT && r in t.index
  {
    var own := hs.NewBucket(t.index[r].na, t.index[r].src);
    if |t.buckets[own] - {k}| < 64 then nb == own
    else nb < |t.buckets| && k in t.buckets[nb] && forall c :: 0 <= c < nb ==> k !in t.buckets[c]
  }

  lemma LandingLands(hs: Hasher, t: Tables, k: string, r: string)
    requires |t.buckets| == NEW_BUCKET_COUNT && k in t.index && r in t.index
    requires FirstHome(t.buckets, k, 0) < NEW_BUCKET_COUNT
    ensures LandsIn(hs, t, k, r, Landing(hs, t, k, r))
  {
  }

  lemma PickedIsEldest(hs: Hasher, t: Tables, b: nat) returns (i: nat)
    requires TriedInv(hs, t) && b < |t.tried| && t.tried[b] != []
    ensures i == FirstEldest(t.index, t.tried[b]) && EldestAt(t, t.tried[b], i)
  {
    i := FirstEldest(t.index, t.tried[b]);
    FirstEldestIsFirst(t.index, t.tried[b]);
  }

  lemma MovedDisplaces(hs: Hasher, t: Tables, k: string, i: nat)
    requires |t.buckets| == NEW_BUCKET_COUNT && TriedInv(hs, t) && k in t.index
    requires FirstHome(t.buckets, k, 0) < NEW_BUCKET_COUNT && |ListFor(hs, t, k)| >= TRIED_BUCKET_SIZE
    requires i == FirstEldest(t.index, ListFor(hs, t, k)) && ListFor(hs, t, k)[i] in t.index
    ensures Moved(hs, t, k) == Swapped(PulledOut(t, k), k, hs.TriedBucket(t.index[k].na), i,
                                       Landing(hs, t, k, ListFor(hs, t, k)[i]))
  {
  }

  lemma SwapTouches(t: Tables, k: string, b: nat, i: nat, nb: nat)
    requires k in t.index && b < |t.tried| && i < |t.tried[b]| && nb < |t.buckets|
    requires t.tried[b][i] in t.index && t.tried[b][i] != k && t.index[t.tried[b][i]].refs == 0
    ensures
      var r, t' := t.tried[b][i], Swapped(PulledOut(t, k), k, b, i, nb);
      && OthersKept(t, t', {k, r}) && t'.index[r] == t.index[r].(tried := false, refs := 1)
      && Rehoused(t, t', k, {r}, nb) && t'.tried == t.tried[b := t.tried[b][i := k]]
  {
  }

  lemma PlaceInList(hs: Hasher, t: Tables, k: string, i: nat)
    requires TriedInv(hs, t) && CountInv(t, {}) && k in t.index && !t.index[k].tried && i < |ListFor(hs, t, k)|
    ensures var r := ListFor(hs, t, k)[i]; r in t.index && r != k && t.index[r].refs == 0
  {
    assert ListFor(hs, t, k)[i] in ListFor(hs, t, k);
  }

  /** When the list is full, its eldest entry gives way: it is new again with one reference, in the bucket
      where it lands; no other address is touched. */
  lemma GoodDisplaces(hs: Hasher, t: Tables, na: NetAddr, now: int) returns (i: nat, nb: nat)
    requires Inv(hs, t) && NetAddressKey(na) in t.index && !t.index[NetAddressKey(na)].tried
    requires |ListFor(hs, t, NetAddressKey(na))| >= 256
    ensures
      var k, t' := NetAddressKey(na), Promote(hs, t, na, now);
      && EldestAt(t, ListFor(hs, t, k), i)
      && var r, b := ListFor(hs, t, k)[i], hs.TriedBucket(t.index[k].na);
      && r != k && LandsIn(hs, t, k, r, nb) && OthersKept(t, t', {k, r})
      && t'.index[r] == t.index[r].(tried := false, refs := 1)
      && Rehoused(t, t', k, {r}, nb) && t'.tried == t.tried[b := t.tried[b][i := k]]
  {
    var k := NetAddressKey(na);
    var b, u := hs.TriedBucket(t.index[k].na), Recorded(t, k, now);
    RecordedKeepsInv(hs, t, k, now);
    NewEntryHasHome(hs, u, k);
    i := PickedIsEldest(hs, u, b);
    PlaceInList(hs, u, k, i);
    var r := u.tried[b][i];
    nb := Landing(hs, u, k, r);
    LandingLands(hs, u, k, r);
    MovedDisplaces(hs, u, k, i);
    SwapTouches(u, k, b, i, nb);
    BeforeRecording(t, k, now, Promote(hs, t, na, now), {k, r}, {r}, nb);
    EldestBefore(hs, t, k, now, i);
  }

  lemma EldestBefore(hs: Hasher, t: Tables, k: string, now: int, i: nat)
    requires k in t.index && |t.tried| == TRIED_BUCKET_COUNT
    requires EldestAt(Recorded(t, k, now), ListFor(hs, t, k), i)
    ensures EldestAt(t, ListFor(hs, t, k), i)
  {
  }

  // ---------- Adding an address ----------

  /** Expiry is called for before the address goes into its bucket. */
  predicate MakesRoom(hs: Hasher, t: Tables, na: NetAddr, src: NetAddr, draw: nat)
    requires Inv(hs, t)
  {
    var b := hs.NewBucket(na, src);
    GoesOn(hs, t, na, draw) && NetAddressKey(na) !in t.buckets[b] && |t.buckets[b]| > 64
  }

  /** Of the addresses in a bucket those that expire are the bad ones, and an eldest of the others. */
  predicate Expires(t: Tables, b: nat, now: int, victim: set<string>, q: string)
    requires b < |t.buckets| && t.buckets[b] <= t.index.Keys
  {
    q in t.buckets[b] && (t.index[q].IsBad(now) || q in victim)
  }

  /** One address is the victim, not bad and as old as any that is not bad; none if all are bad. */
  ghost predicate OneEldest(t: Tables, b: nat, now: int, victim: set<string>)
    requires b < |t.buckets| && t.buckets[b] <= t.index.Keys
  {
    if forall q :: q in t.buckets[b] ==> t.index[q].IsBad(now) then victim == {}
    else
      exists v :: v in t.buckets[b] && victim == {v} && !t.index[v].IsBad(now) &&
        forall q :: q in t.buckets[b] && !t.index[q].IsBad(now) ==>
          t.index[v].na.timestamp <= t.index[q].na.timestamp
  }

  lemma VictimIsEldest(t: Tables, u: Tables, b: nat, now: int, victim: set<string>)
    requires b < |t.buckets| && t.buckets[b] <= t.index.Keys && u.buckets == t.buckets && t.index.Keys <= u.index.Keys
    requires forall q :: q in t.buckets[b] ==> u.index[q] == t.index[q]
    requires IsVictim(u, b, now, victim)
    ensures OneEldest(t, b, now, victim)
  {
    var good := u.buckets[b] - BadKeys(u, b, now);
    if good == {} {
      forall q | q in t.buckets[b] ensures t.index[q].IsBad(now) {
        assert q !in good;
      }
    } else {
      var v :| v in good && victim == {v} && forall q :: q in good ==>
        u.index[v].na.timestamp <= u.index[q].na.timestamp;
      forall q | q in t.buckets[b] && !t.index[q].IsBad(now)
        ensures t.index[v].na.timestamp <= t.index[q].na.timestamp
      {
        assert q in good;
      }
    }
  }

  /** Adding an address calls for expiry only with such a victim. */
  lemma AddPicksEldest(hs: Hasher, t: Tables, na: NetAddr, src: NetAddr, draw: nat, now: int, victim: set<string>)
    requires Inv(hs, t) && UpdateLegal(hs, t, na, src, draw, now, victim) && MakesRoom(hs, t, na, src, draw)
    ensures OneEldest(t, hs.NewBucket(na, src), now, victim)
  {
    GoesOnIff(hs, t, na, src, draw);
    NotedKeepsOthers(hs, t, na, src, draw);
    VictimIsEldest(t, Noted(hs, t, na, src, draw).0, hs.NewBucket(na, src), now, victim);
  }

  /** An address as last seen, and seen again: its services add up, and the time is that of the later report,
      but also that of an earlier report with services not known yet. */
  function SeenAgain(was: NetAddr, na: NetAddr): NetAddr {
    NetAddr(was.endpoint,
            if was.timestamp < na.timestamp || !(na.services <= was.services)
            then na.timestamp else was.timestamp,
            was.services + na.services)
  }

  lemma RefreshedIsSeenAgain(e: Entry, na: NetAddr)
    ensures Refreshed(e, na) == e.(na := SeenAgain(e.na, na))
  {
    assert na.services <= e.na.services ==> e.na.services + na.services == e.na.services;
  }

  /** What is noted of the address itself, before it goes to a bucket. */
  lemma NotedEntry(hs: Hasher, t: Tables, na: NetAddr, src: NetAddr, draw: nat)
    requires Inv(hs, t)
    ensures
      var k, u := NetAddressKey(na), Noted(hs, t, na, src, draw).0;
      && u.tried == t.tried
      && (!hs.routable(na.endpoint) ==> u == t)
      && (hs.routable(na.endpoint) && k !in t.index ==>
            k in u.index && u.index[k] == Entry(na, src, 0, ZERO_TIME, ZERO_TIME, 0, false))
      && (hs.routable(na.endpoint) && k in t.index ==>
            var e := t.index[k];
            k in u.index && u.index[k] == e.(na := SeenAgain(e.na, na)))
  {
    var k := NetAddressKey(na);
    if hs.routable(na.endpoint) && k in t.index {
      RefreshedIsSeenAgain(t.index[k], na);
      assert Noted(hs, t, na, src, draw).0 == t.(index := t.index[k := Refreshed(t.index[k], na)]);
    }
  }

  lemma BucketTakesIn(t: Tables, b: nat, k: string, now: int, victim: set<string>)
    requires b < |t.buckets| && t.buckets[b] <= t.index.Keys && k in t.index
    requires k !in t.buckets[b] && |t.buckets[b]| > NEW_BUCKET_SIZE ==> IsVictim(t, b, now, victim)
    ensures
      var t' := AddToBucket(t, b, k, now, victim);
      && t'.tried == t.tried && |t'.buckets| == |t.buckets| && k in t'.index
      && t'.index[k] == t.index[k].(refs := t.index[k].refs + if k in t.buckets[b] then 0 else 1)
      && (forall c :: 0 <= c < |t.buckets| ==> (k in t'.buckets[c] <==> k in t.buckets[c] || c == b))
  {
    if k !in t.buckets[b] && |t.buckets[b]| > NEW_BUCKET_SIZE {
      ExpireKeepsOthers(t, b, now, victim, k);
    }
  }

  /** An address that cannot be routed to is not noted. */
  lemma AddIgnores(hs: Hasher, t: Tables, na: NetAddr, src: NetAddr, draw: nat, now: int, victim: set<string>)
    requires Inv(hs, t) && UpdateLegal(hs, t, na, src, draw, now, victim) && !hs.routable(na.endpoint)
    ensures Update(hs, t, na, src, draw, now, victim) == t
  {
  }

  lemma UnknownHasNoBucket(t: Tables, k: string)
    requires NewInv(t) && k !in t.index
    ensures forall c :: 0 <= c < |t.buckets| ==> k !in t.buckets[c]
  {
  }

  /** A new address is noted as reported, with nothing tried yet, in one bucket. */
  lemma AddNotesNew(hs: Hasher, t: Tables, na: NetAddr, src: NetAddr, draw: nat, now: int, victim: set<string>)
    requires Inv(hs, t) && UpdateLegal(hs, t, na, src, draw, now, victim)
    requires hs.routable(na.endpoint) && NetAddressKey(na) !in t.index
    ensures
      var k, t' := NetAddressKey(na), Update(hs, t, na, src, draw, now, victim);
      && k in t'.index && t'.index[k] == Entry(na, src, 0, ZERO_TIME, ZERO_TIME, 1, false)
      && |t'.buckets| == |t.buckets|
      && forall c :: 0 <= c < |t.buckets| ==> (k in t'.buckets[c] <==> c == hs.NewBucket(na, src))
  {
    var k, b := NetAddressKey(na), hs.NewBucket(na, src);
    GoesOnIff(hs, t, na, src, draw);
    NotedEntry(hs, t, na, src, draw);
    NotedKeepsOthers(hs, t, na, src, draw);
    UnknownHasNoBucket(t, k);
    BucketTakesIn(Noted(hs, t, na, src, draw).0, b, k, now, victim);
  }

  /** A known address keeps what was tried of it, is seen again, and gets one more reference if it goes on to a
      bucket that does not hold it. */
  lemma AddNotesKnown(hs: Hasher, t: Tables, na: NetAddr, src: NetAddr, draw: nat, now: int, victim: set<string>)
    requires Inv(hs, t) && UpdateLegal(hs, t, na, src, draw, now, victim)
    requires hs.routable(na.endpoint) && NetAddressKey(na) in t.index
    ensures
      var k, b, t' := NetAddressKey(na), hs.NewBucket(na, src), Update(hs, t, na, src, draw, now, victim);
      var e, goesOn := t.index[k], GoesOn(hs, t, na, draw);
      && k in t'.index && |t'.buckets| == |t.buckets|
      && t'.index[k] == Entry(SeenAgain(e.na, na), e.src, e.attempts, e.lastAttempt, e.lastSuccess,
                              e.refs + (if goesOn && k !in t.buckets[b] then 1 else 0), e.tried)
      && forall c :: 0 <= c < |t.buckets| ==> (k in t'.buckets[c] <==> k in t.buckets[c] || (goesOn && c == b))
  {
    var k, b := NetAddressKey(na), hs.NewBucket(na, src);
    var u := Noted(hs, t, na, src, draw).0;
    GoesOnIff(hs, t, na, src, draw);
    NotedEntry(hs, t, na, src, draw);
    NotedKeepsOthers(hs, t, na, src, draw);
    if GoesOn(hs, t, na, draw) {
      BucketTakesIn(u, b, k, now, victim);
    }
  }

  /** The last-seen time of a known address moves back if and only if an older report has new services. */
  lemma SeenGoesBackIff(hs: Hasher, t: Tables, na: NetAddr, src: NetAddr, draw: nat, now: int, victim: set<string>)
    requires Inv(hs, t) && UpdateLegal(hs, t, na, src, draw, now, victim)
    requires hs.routable(na.endpoint) && NetAddressKey(na) in t.index
    ensures
      var k, t' := NetAddressKey(na), Update(hs, t, na, src, draw, now, victim);
      && k in t'.index
      && (t'.index[k].na.timestamp < t.index[k].na.timestamp <==>
          na.timestamp < t.index[k].na.timestamp && !(na.services <= t.index[k].na.services))
  {
    AddNotesKnown(hs, t, na, src, draw, now, victim);
  }

  /** An address seen at 100, and reported again as of 50 with one more service. */
  lemma SeenBackExample(src: NetAddr)
    ensures
      var early, late := NetAddr("a", 50, {0, 3}), NetAddr("a", 100, {0});
      && Inv(CROWDED, EMPTY) && UpdateLegal(CROWDED, EMPTY, late, src, 1, 0, {})
      && var once := Update(CROWDED, EMPTY, late, src, 1, 0, {});
      && Inv(CROWDED, once) && UpdateLegal(CROWDED, once, early, src, 1, 0, {})
      && var twice := Update(CROWDED, once, early, src, 1, 0, {});
      && "a" in once.index && once.index["a"].na.timestamp == 100
      && "a" in twice.index && twice.index["a"].na.timestamp == 50
  {
    var early, late := NetAddr("a", 50, {0, 3}), NetAddr("a", 100, {0});
    EmptyInv(CROWDED);
    assert UpdateLegal(CROWDED, EMPTY, late, src, 1, 0, {});
    UpdateKeepsInv(CROWDED, EMPTY, late, src, 1, 0, {});
    AddNotesNew(CROWDED, EMPTY, late, src, 1, 0, {});
    SeenTwice(CROWDED, Update(CROWDED, EMPTY, late, src, 1, 0, {}), early, src);
  }

  lemma NotDrawn(hs: Hasher, t: Tables, na: NetAddr)
    requires Inv(hs, t) && NetAddressKey(na) in t.index && t.index[NetAddressKey(na)].refs == 1
    ensures !GoesOn(hs, t, na, 1)
  {
    OneOfTwo(t.index[NetAddressKey(na)].refs);
  }

  lemma OneOfTwo(n: int)
    requires n == 1
    ensures 1 % (2 * n) == 1
  {
  }

  lemma LegalUndrawn(hs: Hasher, t: Tables, na: NetAddr, src: NetAddr, draw: nat)
    requires Inv(hs, t) && !GoesOn(hs, t, na, draw)
    ensures UpdateLegal(hs, t, na, src, draw, 0, {})
  {
    GoesOnIff(hs, t, na, src, draw);
  }

  lemma SeenTwice(hs: Hasher, t: Tables, na: NetAddr, src: NetAddr)
    requires Inv(hs, t) && hs.routable(na.endpoint) && NetAddressKey(na) in t.index
    requires var e := t.index[NetAddressKey(na)]; e.refs == 1 && !(na.services <= e.na.services)
    ensures UpdateLegal(hs, t, na, src, 1, 0, {})
    ensures var t', k := Update(hs, t, na, src, 1, 0, {}), NetAddressKey(na);
      k in t'.index && t'.index[k].na.timestamp == na.timestamp
  {
    NotDrawn(hs, t, na);
    LegalUndrawn(hs, t, na, src, 1);
    AddNotesKnown(hs, t, na, src, 1, 0, {});
  }

  lemma ExpiryTouches(t: Tables, b: nat, k: string, now: int, victim: set<string>, q: string)
    requires b < |t.buckets| && t.buckets[b] <= t.index.Keys && k in t.index && q in t.index && q != k
    requires k !in t.buckets[b] && |t.buckets[b]| > NEW_BUCKET_SIZE ==> IsVictim(t, b, now, victim)
    ensures
      var t' := AddToBucket(t, b, k, now, victim);
      var out := k !in t.buckets[b] && |t.buckets[b]| > NEW_BUCKET_SIZE && Expires(t, b, now, victim, q);
      && |t'.buckets| == |t.buckets|
      && (q in t'.index <==> !(out && t.index[q].refs == 1))
      && (q in t'.index ==> t'.index[q] == t.index[q].(refs := t.index[q].refs - if out then 1 else 0))
      && (forall c :: 0 <= c < |t.buckets| ==> (q in t'.buckets[c] <==> q in t.buckets[c] && !(out && c == b)))
  {
    if k !in t.buckets[b] && |t.buckets[b]| > NEW_BUCKET_SIZE {
      ExpireMakesRoom(t, b, now, victim);
    }
  }

  /** Every other address keeps its entry and its buckets, unless it expires to make room: then it leaves the
      one bucket, and the index with its last reference.  The tried lists stay as they are. */
  lemma AddTouches(
    hs: Hasher, t: Tables, na: NetAddr, src: NetAddr, draw: nat, now: int, victim: set<string>, q: string)
    requires Inv(hs, t) && UpdateLegal(hs, t, na, src, draw, now, victim)
    requires q in t.index && q != NetAddressKey(na)
    ensures
      var b, t' := hs.NewBucket(na, src), Update(hs, t, na, src, draw, now, victim);
      var out := MakesRoom(hs, t, na, src, draw) && Expires(t, b, now, victim, q);
      && t'.tried == t.tried && |t'.buckets| == |t.buckets|
      && (q in t'.index <==> !(out && t.index[q].refs == 1))
      && (q in t'.index ==> t'.index[q] == t.index[q].(refs := t.index[q].refs - if out then 1 else 0))
      && (forall c :: 0 <= c < |t.buckets| ==> (q in t'.buckets[c] <==> q in t.buckets[c] && !(out && c == b)))
  {
    var k, b := NetAddressKey(na), hs.NewBucket(na, src);
    var u := Noted(hs, t, na, src, draw).0;
    GoesOnIff(hs, t, na, src, draw);
    NotedEntry(hs, t, na, src, draw);
    NotedKeepsOthers(hs, t, na, src, draw);
    if GoesOn(hs, t, na, draw) {
      BucketTakesIn(u, b, k, now, victim);
      ExpiryTouches(u, b, k, now, victim, q);
    }
  }

  // ---------- Attempt, Connected, SetServices ----------

  /** One entry may have changed, and nothing else. */
  predicate OnlyAt(t: Tables, t': Tables, k: string) {
    && t'.index.Keys == t.index.Keys && (forall q :: q in t.index && q != k ==> t'.index[q] == t.index[q])
    && t'.buckets == t.buckets && t'.tried == t.tried && t'.nNew == t.nNew && t'.nTried == t.nTried
  }

  lemma AttemptCounts(t: Tables, na: NetAddr, now: int)
    ensures
      var k, t' := NetAddressKey(na), Attempted(t, na, now);
      && OnlyAt(t, t', k)
      && (k in t.index ==>
            var e := t.index[k];
            t'.index[k] == Entry(e.na, e.src, e.attempts + 1, now, e.lastSuccess, e.refs, e.tried))
  {
  }

  /** The last-seen time of a connected address is never more than twenty minutes behind. */
  lemma ConnectedRefreshes(t: Tables, na: NetAddr, now: int)
    ensures
      var k, t' := NetAddressKey(na), ConnectedTo(t, na, now);
      && OnlyAt(t, t', k)
      && (k in t.index ==>
            var e, seen := t.index[k], t'.index[k].na.timestamp;
            && t'.index[k] == e.(na := NetAddr(e.na.endpoint, seen, e.na.services))
            && now - 20 * 60 <= seen && (seen == e.na.timestamp || seen == now > e.na.timestamp + 20 * 60))
  {
  }

  lemma ServicesReplaced(t: Tables, na: NetAddr, services: set<nat>)
    ensures
      var k, t' := NetAddressKey(na), ServicesSet(t, na, services);
      && OnlyAt(t, t', k)
      && (k in t.index ==>
            var e := t.index[k]; t'.index[k] == e.(na := NetAddr(e.na.endpoint, e.na.timestamp, services)))
  {
  }

  // ---------- Bad addresses, and the buckets of a group ----------

  /** The four ways to be bad, none of which counts within a minute of an attempt: seen ten minutes ahead of
      time, not seen for a month, three failures and never a success, ten failures and no success in a week. */
  lemma BadIff(e: Entry, now: int)
    ensures e.IsBad(now) <==>
      && now - e.lastAttempt >= 60
      && (|| e.na.timestamp - now > 600
          || now - e.na.timestamp > 2592000
          || (e.lastSuccess == ZERO_TIME && e.attempts >= 3)
          || (now - e.lastSuccess >= 604800 && e.attempts >= 10))
  {
  }

  ghost predicate HasValue(f: nat -> nat, n: nat, b: nat) {
    exists h: nat :: h < n && f(h) == b
  }

  lemma IsValue(f: nat -> nat, n: nat, b: nat, h: nat)
    requires h < n && f(h) == b
    ensures HasValue(f, n, b)
  {
  }

  lemma {:induction false} FewValues(f: nat -> nat, n: nat, bs: set<nat>)
    requires forall b :: b in bs ==> HasValue(f, n, b)
    ensures |bs| <= n
  {
    if n == 0 {
      assert bs == {};
    } else {
      var rest := bs - {f(n - 1)};
      forall b | b in rest ensures HasValue(f, n - 1, b) {
        var h: nat :| h < n && f(h) == b;
        assert h < n - 1;
      }
      FewValues(f, n - 1, rest);
      assert |bs| <= |rest| + 1;
    }
  }

  /** Whatever addresses the sources of one group report, they share 64 new buckets. */
  lemma SourcesShareBuckets(hs: Hasher, group: string, reports: set<(NetAddr, NetAddr)>)
    requires forall r :: r in reports ==> hs.group(r.1.endpoint) == group
    ensures |set r | r in reports :: hs.NewBucket(r.0, r.1)| <= 64
  {
    var f := (h: nat) => hs.hash64([Text(group), Word(h)]) % NEW_BUCKET_COUNT;
    var bs := set r | r in reports :: hs.NewBucket(r.0, r.1);
    forall b | b in bs ensures HasValue(f, 64, b) {
      var r :| r in reports && b == hs.NewBucket(r.0, r.1);
      var h := hs.hash64([Text(hs.group(r.0.endpoint)), Text(group)]) % NEW_BUCKETS_PER_GROUP;
      IsValue(f, 64, b, h);
    }
    FewValues(f, 64, bs);
  }

  /** The addresses of one group share eight tried lists. */
  lemma GroupSharesLists(hs: Hasher, group: string, nas: set<NetAddr>)
    requires forall na :: na in nas ==> hs.group(na.endpoint) == group
    ensures |set na | na in nas :: hs.TriedBucket(na)| <= 8
  {
    var f := (h: nat) => hs.hash64([Text(group), Word(h)]) % TRIED_BUCKET_COUNT;
    var bs := set na | na in nas :: hs.TriedBucket(na);
    forall b | b in bs ensures HasValue(f, 8, b) {
      var na :| na in nas && b == hs.TriedBucket(na);
      var h := hs.hash64([Text(NetAddressKey(na))]) % TRIED_BUCKETS_PER_GROUP;
      IsValue(f, 8, b, h);
    }
    FewValues(f, 8, bs);
  }
}
