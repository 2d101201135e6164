/**
 The address manager as the program keeps it: one object per address, shared by the index, the
 new buckets and the tried lists, all updated in place.  `View` reads the objects off as the
 value-level tables, and every method is proved to do to the view what `AddrTables` says.
 */
module AddrManager {
  import opened Common
  import opened AddrTables
  import opened AddrTableProofs
  import opened AddrImage

  class KnownAddress {
    const key: string
    var na: NetAddr
    var src: NetAddr
    var attempts: int
    var lastAttempt: int
    var lastSuccess: int
    var refs: int
    var tried: bool

    constructor (na: NetAddr, src: NetAddr)
      ensures key == NetAddressKey(na) && AsEntry() == Entry(na, src, 0, ZERO_TIME, ZERO_TIME, 0, false)
    {
      this.key := NetAddressKey(na);
      this.na, this.src := na, src;
      this.attempts, this.lastAttempt, this.lastSuccess := 0, ZERO_TIME, ZERO_TIME;
      this.refs, this.tried := 0, false;
    }

    function AsEntry(): Entry
      reads this
    {
      Entry(na, src, attempts, lastAttempt, lastSuccess, refs, tried)
    }
  }

  function BucketKeys(buckets: seq<map<string, KnownAddress>>): (r: seq<set<string>>)
    ensures |r| == |buckets| && forall b :: 0 <= b < |r| ==> r[b] == buckets[b].Keys
  {
    seq(|buckets|, b requires 0 <= b < |buckets| => buckets[b].Keys)
  }

  lemma BucketKeysUpdate(buckets: seq<map<string, KnownAddress>>, b: nat, m: map<string, KnownAddress>)
    requires b < |buckets|
    ensures BucketKeys(buckets[b := m]) == BucketKeys(buckets)[b := m.Keys]
  {
  }

  function ListKeys(l: seq<KnownAddress>): (r: seq<string>)
    ensures |r| == |l| && forall i :: 0 <= i < |r| ==> r[i] == l[i].key
  {
    seq(|l|, i requires 0 <= i < |l| => l[i].key)
  }

  function TriedKeysOf(lists: seq<seq<KnownAddress>>): (r: seq<seq<string>>)
    ensures |r| == |lists| && forall b :: 0 <= b < |r| ==> r[b] == ListKeys(lists[b])
  {
    seq(|lists|, b requires 0 <= b < |lists| => ListKeys(lists[b]))
  }

  /** The three tables share one object per key. */
  ghost predicate Shared(
    index: map<string, KnownAddress>, buckets: seq<map<string, KnownAddress>>, lists: seq<seq<KnownAddress>>)
  {
    && (forall k :: k in index ==> index[k].key == k)
    && (forall b, k :: 0 <= b < |buckets| && k in buckets[b] ==> k in index && buckets[b][k] == index[k])
    && (forall b, i :: 0 <= b < |lists| && 0 <= i < |lists[b]| ==>
          lists[b][i].key in index && index[lists[b][i].key] == lists[b][i])
  }

  /** Taking `k` out of bucket `b` leaves the sharing intact, and so does taking it out of the index
      when that was the last place it was held. */
  lemma SharedAfterDrop(
    index: map<string, KnownAddress>, buckets: seq<map<string, KnownAddress>>, lists: seq<seq<KnownAddress>>,
    b: nat, k: string)
    requires Shared(index, buckets, lists) && b < |buckets|
    ensures Shared(index, buckets[b := buckets[b] - {k}], lists)
    ensures (forall c :: 0 <= c < |buckets| && k in buckets[c] ==> c == b)
         && (forall c, i :: 0 <= c < |lists| && 0 <= i < |lists[c]| ==> lists[c][i].key != k)
        ==> Shared(index - {k}, buckets[b := buckets[b] - {k}], lists)
  {
  }

  lemma SharedWhenEmpty(
    index: map<string, KnownAddress>, buckets: seq<map<string, KnownAddress>>, lists: seq<seq<KnownAddress>>)
    requires forall k :: k in index ==> index[k].key == k
    requires BucketKeys(buckets) == NoBuckets() && TriedKeysOf(lists) == NoLists()
    ensures Shared(index, buckets, lists)
  {
    forall b | 0 <= b < |buckets| ensures buckets[b].Keys == {} {
      assert BucketKeys(buckets)[b] == NoBuckets()[b];
    }
    forall b | 0 <= b < |lists| ensures |lists[b]| == 0 {
      assert |lists| == |TriedKeysOf(lists)|;
      assert TriedKeysOf(lists)[b] == NoLists()[b];
    }
  }

  lemma SharedAfterAdd(
    index: map<string, KnownAddress>, buckets: seq<map<string, KnownAddress>>, lists: seq<seq<KnownAddress>>,
    b: nat, k: string)
    requires Shared(index, buckets, lists) && b < |buckets| && k in index
    ensures Shared(index, buckets[b := buckets[b][k := index[k]]], lists)
  {
  }

  lemma SharedAfterPullOut(
    index: map<string, KnownAddress>, buckets: seq<map<string, KnownAddress>>, buckets': seq<map<string, KnownAddress>>,
    lists: seq<seq<KnownAddress>>, k: string)
    requires Shared(index, buckets, lists) && |buckets'| == |buckets|
    requires forall b :: 0 <= b < |buckets| ==> buckets'[b] == buckets[b] - {k}
    ensures Shared(index, buckets', lists)
  {
  }

  lemma PulledOutKeys(
    t: Tables, buckets: seq<map<string, KnownAddress>>, buckets': seq<map<string, KnownAddress>>, k: string)
    requires t.buckets == BucketKeys(buckets) && |buckets'| == |buckets| && k in t.index
    requires forall b :: 0 <= b < |buckets| ==> buckets'[b] == buckets[b] - {k}
    ensures BucketKeys(buckets') == PulledOut(t, k).buckets
  {
  }

  lemma SharedAfterTried(
    index: map<string, KnownAddress>, buckets: seq<map<string, KnownAddress>>, lists: seq<seq<KnownAddress>>,
    b: nat, k: string)
    requires Shared(index, buckets, lists) && b < |lists| && k in index
    ensures Shared(index, buckets, lists[b := lists[b] + [index[k]]])
  {
  }

  lemma SharedAfterSwap(
    index: map<string, KnownAddress>, buckets: seq<map<string, KnownAddress>>, lists: seq<seq<KnownAddress>>,
    b: nat, i: nat, k: string)
    requires Shared(index, buckets, lists) && b < |lists| && i < |lists[b]| && k in index
    ensures Shared(index, buckets, lists[b := lists[b][i := index[k]]])
  {
  }

  lemma TriedKeysUpdate(lists: seq<seq<KnownAddress>>, b: nat, l: seq<KnownAddress>)
    requires b < |lists|
    ensures TriedKeysOf(lists[b := l]) == TriedKeysOf(lists)[b := ListKeys(l)]
  {
  }

  class AddrManager {
    var hs: Hasher
    var addrIndex: map<string, KnownAddress>
    var addrNew: seq<map<string, KnownAddress>>
    var addrTried: seq<seq<KnownAddress>>
    var nNew: int
    var nTried: int

    ghost predicate Coherent()
      reads this
    {
      Shared(addrIndex, addrNew, addrTried)
    }

    ghost function View(): Tables
      reads this, addrIndex.Values
    {
      Tables(map k | k in addrIndex :: addrIndex[k].AsEntry(),
             BucketKeys(addrNew), TriedKeysOf(addrTried), nNew, nTried)
    }

    ghost predicate Valid()
      reads this, addrIndex.Values
    {
      Coherent() && Inv(hs, View())
    }

    constructor (hs: Hasher)
      ensures Valid() && View() == EMPTY && this.hs == hs
    {
      this.hs := hs;
      addrIndex := map[];
      addrNew := seq(NEW_BUCKET_COUNT, _ => map[]);
      addrTried := seq(TRIED_BUCKET_COUNT, _ => []);
      nNew, nTried := 0, 0;
      new;
      EmptyInv(hs);
      forall b | 0 <= b < NEW_BUCKET_COUNT ensures BucketKeys(addrNew)[b] == {} {
        assert addrNew[b] == map[];
      }
      assert View().tried == EMPTY.tried;
      assert View().index == EMPTY.index;
    }

    /** Drop one reference: the lines expireNew runs for each bad entry and again for the eldest. */
    method ReleaseRef(bucket: nat, k: string)
      requires Coherent() && bucket < |addrNew| && k in addrNew[bucket]
      requires addrIndex[k].refs == 1 ==> forall c :: 0 <= c < |addrNew| && k in addrNew[c] ==> c == bucket
      requires forall b, i :: 0 <= b < |addrTried| && 0 <= i < |addrTried[b]| ==> addrTried[b][i].key != k
      modifies this`addrIndex, this`addrNew, this`nNew, addrIndex[k]
      ensures Coherent() && View() == DropRefs(old(View()), bucket, {k})
      ensures forall q :: q in addrIndex ==> q in old(addrIndex) && addrIndex[q] == old(addrIndex[q])
      ensures forall q :: q in old(addrIndex) && q != k ==> q in addrIndex
    {
      ghost var t := View();
      SharedAfterDrop(addrIndex, addrNew, addrTried, bucket, k);
      var v := addrNew[bucket][k];
      addrNew := addrNew[bucket := addrNew[bucket] - {k}];
      v.refs := v.refs - 1;
      if v.refs == 0 {
        nNew := nNew - 1;
        addrIndex := addrIndex - {k};
        assert View().index == t.index - {k};
      } else {
        assert View().index == t.index[k := t.index[k].(refs := t.index[k].refs - 1)];
      }
      BucketKeysUpdate(old(addrNew), bucket, old(addrNew[bucket]) - {k});
      assert addrNew[bucket].Keys == t.buckets[bucket] - {k};
      DropRefsOne(t, bucket, k);
    }

    lemma ReleaseIsSafe(bucket: nat, k: string, pending: set<string>)
      requires Coherent() && InvBut(hs, View(), pending)
      requires bucket < |addrNew| && k in addrNew[bucket] && k !in pending
      ensures addrIndex[k].refs == 1 ==> forall c :: 0 <= c < |addrNew| && k in addrNew[c] ==> c == bucket
      ensures forall b, i :: 0 <= b < |addrTried| && 0 <= i < |addrTried[b]| ==> addrTried[b][i].key != k
      ensures InvBut(hs, DropRefs(View(), bucket, {k}), pending)
    {
      var t := View();
      Releasable(hs, t, bucket, k, pending);
      DropRefsKeepsInv(hs, t, bucket, {k}, pending);
      assert t.index[k] == addrIndex[k].AsEntry();
      forall b, i | 0 <= b < |addrTried| && 0 <= i < |addrTried[b]| ensures addrTried[b][i].key != k {
        assert t.tried[b][i] in t.tried[b];
      }
      forall c | 0 <= c < |addrNew| && k in addrNew[c] ensures k in t.buckets[c] {}
    }

    /** ReleaseRef where the invariant shows it to be safe. */
    method Release(bucket: nat, k: string, ghost pending: set<string>)
      requires Coherent() && bucket < |addrNew| && k in addrNew[bucket] && k !in pending
      requires InvBut(hs, View(), pending)
      modifies this`addrIndex, this`addrNew, this`nNew, addrIndex[k]
      ensures Coherent() && InvBut(hs, View(), pending)
      ensures View() == DropRefs(old(View()), bucket, {k})
      ensures forall q :: q in addrIndex ==> q in old(addrIndex) && addrIndex[q] == old(addrIndex[q])
      ensures forall q :: q in old(addrIndex) && q != k ==> q in addrIndex
    {
      ReleaseIsSafe(bucket, k, pending);
      ReleaseRef(bucket, k);
    }

    /** `oldest` is the live object of the key in `eldest`, or null when there is none. */
    ghost predicate Tracks(oldest: KnownAddress?, eldest: set<string>)
      reads this
    {
      if oldest == null then eldest == {}
      else eldest == {oldest.key} && oldest.key in addrIndex && addrIndex[oldest.key] == oldest
    }

    /** One more of the bucket's entries goes. */
    method ReleaseMore(bucket: nat, k: string, ghost pending: set<string>, ghost t: Tables, ghost bad: set<string>)
      requires Coherent() && bucket < |addrNew| && k in addrNew[bucket] && k !in pending
      requires InvBut(hs, View(), pending)
      requires bucket < |t.buckets| && t.buckets[bucket] <= t.index.Keys && bad <= t.buckets[bucket]
      requires k in t.buckets[bucket] - bad && View() == DropRefs(t, bucket, bad)
      modifies this`addrIndex, this`addrNew, this`nNew, addrIndex[k]
      ensures Coherent() && InvBut(hs, View(), pending) && View() == DropRefs(t, bucket, bad + {k})
      ensures forall q :: q in addrIndex ==> q in old(addrIndex) && addrIndex[q] == old(addrIndex[q])
      ensures forall q :: q in old(addrIndex) && q != k ==> q in addrIndex
    {
      DropRefsMore(t, bucket, bad, k);
      Release(bucket, k, pending);
    }

    /** One turn of expireNew's loop, for the entry under `k`. */
    method Examine(bucket: nat, k: string, now: int, oldest: KnownAddress?, ghost pending: set<string>,
                   ghost t: Tables, ghost done: set<string>, ghost bad: set<string>, ghost eldest: set<string>)
      returns (oldest': KnownAddress?, ghost bad': set<string>, ghost eldest': set<string>)
      requires Coherent() && InvBut(hs, View(), pending) && bucket < NEW_BUCKET_COUNT
      requires |t.buckets| == NEW_BUCKET_COUNT && t.buckets[bucket] <= t.index.Keys && t.buckets[bucket] !! pending
      requires Walked(t, bucket, now, done, bad, eldest) && View() == DropRefs(t, bucket, bad)
      requires k in t.buckets[bucket] - done && Tracks(oldest, eldest)
      modifies this`addrIndex, this`addrNew, this`nNew, addrIndex.Values
      ensures Coherent() && InvBut(hs, View(), pending)
      ensures Walked(t, bucket, now, done + {k}, bad', eldest') && View() == DropRefs(t, bucket, bad')
      ensures Tracks(oldest', eldest')
      ensures forall q :: q in addrIndex ==> q in old(addrIndex) && addrIndex[q] == old(addrIndex[q])
    {
      assert k in View().buckets[bucket] && View().index[k] == t.index[k];
      var v := addrNew[bucket][k];
      oldest', bad', eldest' := oldest, bad, eldest;
      if v.AsEntry().IsBad(now) {
        WalkBad(t, bucket, now, done, bad, eldest, k);
        ReleaseMore(bucket, k, pending, t, bad);
        bad' := bad + {k};
      } else {
        WalkGood(t, bucket, now, done, bad, eldest, k);
        if oldest == null || v.na.timestamp <= oldest.na.timestamp {
          oldest', eldest' := v, {k};
        }
      }
    }

    /** The first half of expireNew: walk the bucket in map order, dropping the bad entries and
        remembering the eldest of the others. */
    method DropBad(bucket: nat, now: int, ghost pending: set<string>)
      returns (oldest: KnownAddress?, ghost bad: set<string>, ghost eldest: set<string>)
      requires Coherent() && InvBut(hs, View(), pending)
      requires bucket < NEW_BUCKET_COUNT && addrNew[bucket].Keys !! pending
      modifies this`addrIndex, this`addrNew, this`nNew, addrIndex.Values
      ensures Coherent() && InvBut(hs, View(), pending)
      ensures Walked(old(View()), bucket, now, old(View()).buckets[bucket], bad, eldest)
      ensures View() == DropRefs(old(View()), bucket, bad)
      ensures Tracks(oldest, eldest)
      ensures forall q :: q in addrIndex ==> q in old(addrIndex) && addrIndex[q] == old(addrIndex[q])
    {
      ghost var t := View();
      ghost var done := {};
      bad, eldest, oldest := {}, {}, null;
      var todo := addrNew[bucket].Keys;
      DropRefsNone(t, bucket);
      while todo != {}
        invariant done !! todo && done + todo == t.buckets[bucket]
        invariant Walked(t, bucket, now, done, bad, eldest)
        invariant Coherent() && InvBut(hs, View(), pending)
        invariant View() == DropRefs(t, bucket, bad)
        invariant Tracks(oldest, eldest)
        invariant forall q :: q in addrIndex ==> q in old(addrIndex) && addrIndex[q] == old(addrIndex[q])
      {
        var k :| k in todo;
        OneMore(t.buckets[bucket], done, todo, k);
        oldest, bad, eldest := Examine(bucket, k, now, oldest, pending, t, done, bad, eldest);
        todo := todo - {k};
        done := done + {k};
      }
      assert done == t.buckets[bucket];
    }

    /** expireNew: the bad entries of a new bucket go, and then so does the eldest of the others. */
    method ExpireNew(bucket: nat, now: int, ghost pending: set<string>) returns (ghost victim: set<string>)
      requires Coherent() && InvBut(hs, View(), pending)
      requires bucket < NEW_BUCKET_COUNT && addrNew[bucket].Keys !! pending
      modifies this`addrIndex, this`addrNew, this`nNew, addrIndex.Values
      ensures Coherent() && IsVictim(old(View()), bucket, now, victim)
      ensures View() == Expire(old(View()), bucket, now, victim)
      ensures forall q :: q in addrIndex ==> q in old(addrIndex) && addrIndex[q] == old(addrIndex[q])
    {
      ghost var t := View();
      var oldest: KnownAddress?;
      ghost var bad;
      oldest, bad, victim := DropBad(bucket, now, pending);
      WalkEnds(t, bucket, now, bad, victim);
      if oldest != null {
        assert oldest.AsEntry() == View().index[oldest.key];
        assert oldest.key in View().buckets[bucket];
        Release(bucket, NetAddressKey(oldest.na), pending);
      }
    }

    /** Put a known address into a new bucket and count the reference. */
    method AddRef(bucket: nat, addr: string)
      requires Coherent() && addr in addrIndex && bucket < |addrNew|
      modifies this`addrNew, addrIndex[addr]
      ensures Coherent() && View() == WithRef(old(View()), bucket, addr)
    {
      ghost var t := View();
      SharedAfterAdd(addrIndex, addrNew, addrTried, bucket, addr);
      var ka := addrIndex[addr];
      ka.refs := ka.refs + 1;
      addrNew := addrNew[bucket := addrNew[bucket][addr := ka]];
      assert View().index == t.index[addr := t.index[addr].(refs := t.index[addr].refs + 1)];
      BucketKeysUpdate(old(addrNew), bucket, old(addrNew[bucket])[addr := ka]);
      assert addrNew[bucket].Keys == t.buckets[bucket] + {addr};
    }

    /** Enforce the bucket size before `addr` goes in. */
    method MakeRoom(bucket: nat, addr: string, now: int) returns (ghost victim: set<string>)
      requires Coherent() && InvBut(hs, View(), {addr}) && addr in addrIndex && bucket < NEW_BUCKET_COUNT
      requires addr !in addrNew[bucket]
      modifies this`addrIndex, this`addrNew, this`nNew, addrIndex.Values
      ensures Coherent() && addr in addrIndex
      ensures if |old(View()).buckets[bucket]| > NEW_BUCKET_SIZE
              then IsVictim(old(View()), bucket, now, victim) && View() == Expire(old(View()), bucket, now, victim)
              else View() == old(View())
      ensures forall q :: q in addrIndex ==> q in old(addrIndex) && addrIndex[q] == old(addrIndex[q])
    {
      ghost var t := View();
      victim := {};
      if |addrNew[bucket]| > NEW_BUCKET_SIZE {
        victim := ExpireNew(bucket, now, {addr});
        ExpireKeepsOthers(t, bucket, now, victim, addr);
        assert addr in View().index;
      }
    }

    /** The tail of updateAddress: put a known address into a new bucket, making room first. */
    method Insert(bucket: nat, addr: string, now: int) returns (ghost victim: set<string>)
      requires Coherent() && InvBut(hs, View(), {addr}) && addr in addrIndex && bucket < NEW_BUCKET_COUNT
      modifies this`addrIndex, this`addrNew, this`nNew, addrIndex.Values
      ensures Coherent()
      ensures addr !in old(View()).buckets[bucket] && |old(View()).buckets[bucket]| > NEW_BUCKET_SIZE ==>
                IsVictim(old(View()), bucket, now, victim)
      ensures View() == AddToBucket(old(View()), bucket, addr, now, victim)
      ensures forall q :: q in addrIndex ==> q in old(addrIndex) && addrIndex[q] == old(addrIndex[q])
    {
      victim := {};
      if addr !in addrNew[bucket] {
        victim := MakeRoom(bucket, addr, now);
        AddRef(bucket, addr);
      }
    }

    /** When one object alone has changed, so has one entry of the view. */
    twostate lemma Touched(k: string)
      requires unchanged(this) && k in addrIndex
      requires forall q :: q in addrIndex && q != k ==> addrIndex[q].AsEntry() == old(addrIndex[q].AsEntry())
      ensures View() == old(View()).(index := old(View()).index[k := addrIndex[k].AsEntry()])
    {
    }

    /** Index an address that is not yet known. */
    method Learn(na: NetAddr, src: NetAddr)
      requires Coherent() && NetAddressKey(na) !in addrIndex
      modifies this`addrIndex, this`nNew
      ensures Coherent()
      ensures View() == old(View()).(
                index := old(View()).index[NetAddressKey(na) := Entry(na, src, 0, ZERO_TIME, ZERO_TIME, 0, false)],
                nNew := old(View()).nNew + 1)
      ensures NetAddressKey(na) in addrIndex && fresh(addrIndex[NetAddressKey(na)])
      ensures addrIndex == old(addrIndex)[NetAddressKey(na) := addrIndex[NetAddressKey(na)]]
    {
      ghost var t := View();
      var ka := new KnownAddress(na, src);
      addrIndex := addrIndex[NetAddressKey(na) := ka];
      nNew := nNew + 1;
      assert View().index == t.index[NetAddressKey(na) := ka.AsEntry()];
    }

    /** Bring a known address up to date. */
    method Refresh(na: NetAddr)
      requires Coherent() && NetAddressKey(na) in addrIndex
      modifies addrIndex[NetAddressKey(na)]
      ensures View() == old(View()).(
                index := old(View()).index[NetAddressKey(na) := Refreshed(old(View()).index[NetAddressKey(na)], na)])
    {
      var ka := addrIndex[NetAddressKey(na)];
      if na.timestamp > ka.na.timestamp || !(na.services <= ka.na.services) {
        ka.na := ka.na.(timestamp := na.timestamp, services := ka.na.services + na.services);
      }
      Touched(NetAddressKey(na));
    }

    /** updateAddress up to the choice of bucket. */
    method Note(na: NetAddr, src: NetAddr, draw: nat) returns (go: bool)
      requires Valid()
      modifies this`addrIndex, this`nNew, addrIndex.Values
      ensures Coherent() && (View(), go) == Noted(hs, old(View()), na, src, draw)
      ensures forall q :: q in addrIndex ==>
        if q in old(addrIndex) then addrIndex[q] == old(addrIndex[q]) else fresh(addrIndex[q])
    {
      var addr := NetAddressKey(na);
      if !hs.routable(na.endpoint) {
        return false;
      }
      if addr in addrIndex {
        assert addrIndex[addr].AsEntry() == View().index[addr];
        Refresh(na);
        var ka := addrIndex[addr];
        assert ka.AsEntry() == View().index[addr];
        if ka.tried || ka.refs == NEW_BUCKETS_PER_ADDRESS {
          return false;
        }
        go := draw % (2 * ka.refs) == 0;
      } else {
        Learn(na, src);
        go := true;
      }
    }

    /** updateAddress: learn or refresh an address and perhaps put it into one more new bucket. */
    method UpdateAddress(na: NetAddr, src: NetAddr, draw: nat, now: int) returns (ghost victim: set<string>)
      requires Valid()
      modifies this`addrIndex, this`addrNew, this`nNew, addrIndex.Values
      ensures Valid() && UpdateLegal(hs, old(View()), na, src, draw, now, victim)
      ensures View() == Update(hs, old(View()), na, src, draw, now, victim)
      ensures forall q :: q in addrIndex ==>
        if q in old(addrIndex) then addrIndex[q] == old(addrIndex[q]) else fresh(addrIndex[q])
    {
      ghost var t := View();
      NotedKeepsInv(hs, t, na, src, draw);
      var go := Note(na, src, draw);
      victim := {};
      if go {
        assert NetAddressKey(na) in View().index;
        victim := Insert(hs.NewBucket(na, src), NetAddressKey(na), now);
      }
      UpdateKeepsInv(hs, t, na, src, draw, now, victim);
    }

    /** pickTried: the first entry with the earliest time in a tried list. */
    method PickTried(bucket: nat) returns (i: nat)
      requires Coherent() && bucket < |addrTried| && addrTried[bucket] != []
      ensures i < |addrTried[bucket]|
      ensures i == FirstEldest(View().index, View().tried[bucket])
    {
      var l := addrTried[bucket];
      ghost var keys := ListKeys(l);
      i := 0;
      for j := 1 to |l|
        invariant i < j
        invariant forall k :: k in keys[..j] ==> k in View().index
        invariant i == FirstEldest(View().index, keys[..j])
      {
        assert keys[..j + 1][..j] == keys[..j];
        assert View().index[keys[j]] == l[j].AsEntry() && View().index[keys[i]] == l[i].AsEntry();
        if l[i].na.timestamp > l[j].na.timestamp {
          i := j;
        }
      }
      assert keys[..|l|] == keys;
    }

    /** Good's loop over the new buckets: take the address out of each and note the first one. */
    method LeaveBuckets(addr: string, ka: KnownAddress) returns (oldBucket: int)
      modifies this`addrNew, ka
      ensures |addrNew| == |old(addrNew)|
      ensures forall j :: 0 <= j < |addrNew| ==> addrNew[j] == old(addrNew)[j] - {addr}
      ensures ka.AsEntry() == old(ka.AsEntry()).(refs := old(ka.refs) - |Homes(BucketKeys(old(addrNew)), addr)|)
      ensures oldBucket == (var b := FirstHome(BucketKeys(old(addrNew)), addr, 0); if b == |addrNew| then -1 else b)
    {
      ghost var was := BucketKeys(addrNew);
      oldBucket := -1;
      for i := 0 to |addrNew|
        invariant |addrNew| == |was|
        invariant forall j :: 0 <= j < i ==> addrNew[j] == old(addrNew)[j] - {addr}
        invariant forall j :: i <= j < |was| ==> addrNew[j] == old(addrNew)[j]
        invariant ka.AsEntry() == old(ka.AsEntry()).(refs := old(ka.refs) - |Homes(was[..i], addr)|)
        invariant oldBucket == if FirstHome(was, addr, 0) < i then FirstHome(was, addr, 0) else -1
      {
        HomesOfPrefix(was, addr, i);
        if addr in addrNew[i] {
          addrNew := addrNew[i := addrNew[i] - {addr}];
          ka.refs := ka.refs - 1;
          if oldBucket == -1 {
            oldBucket := i;
          }
        } else {
          assert addrNew[i] - {addr} == addrNew[i];
        }
      }
      assert was[..|was|] == was;
    }

    method PullOut(addr: string) returns (oldBucket: int)
      requires Coherent() && addr in addrIndex
      modifies this`addrNew, addrIndex[addr]
      ensures Coherent() && View() == PulledOut(old(View()), addr)
      ensures oldBucket == (var b := FirstHome(old(View()).buckets, addr, 0); if b == |addrNew| then -1 else b)
    {
      ghost var t := View();
      oldBucket := LeaveBuckets(addr, addrIndex[addr]);
      SharedAfterPullOut(addrIndex, old(addrNew), addrNew, addrTried, addr);
      assert View().index == t.index[addr := addrIndex[addr].AsEntry()];
      PulledOutKeys(t, old(addrNew), addrNew, addr);
    }

    /** Append an address to a tried list. */
    method Push(bucket: nat, addr: string)
      requires Coherent() && addr in addrIndex && bucket < |addrTried|
      modifies this`addrTried, this`nNew, this`nTried, addrIndex[addr]
      ensures Coherent() && View() == Pushed(old(View()), addr, bucket)
    {
      ghost var t := View();
      var ka := addrIndex[addr];
      SharedAfterTried(addrIndex, addrNew, addrTried, bucket, addr);
      TriedKeysUpdate(addrTried, bucket, addrTried[bucket] + [ka]);
      assert ListKeys(addrTried[bucket] + [ka]) == ListKeys(addrTried[bucket]) + [addr];
      nNew := nNew - 1;
      ka.tried := true;
      addrTried := addrTried[bucket := addrTried[bucket] + [ka]];
      nTried := nTried + 1;
      assert View().index == t.index[addr := ka.AsEntry()];
    }

    /** The entry at a place of a tried list gives way to another. */
    method Replace(bucket: nat, i: nat, addr: string)
      requires Coherent() && addr in addrIndex && bucket < |addrTried| && i < |addrTried[bucket]|
      modifies this`addrTried, addrIndex[addr]
      ensures Coherent()
      ensures View() == var t := old(View());
        t.(index := t.index[addr := t.index[addr].(tried := true)],
           tried := t.tried[bucket := t.tried[bucket][i := addr]])
    {
      ghost var t := View();
      var ka := addrIndex[addr];
      SharedAfterSwap(addrIndex, addrNew, addrTried, bucket, i, addr);
      TriedKeysUpdate(addrTried, bucket, addrTried[bucket][i := ka]);
      assert ListKeys(addrTried[bucket][i := ka]) == ListKeys(addrTried[bucket])[i := addr];
      ka.tried := true;
      addrTried := addrTried[bucket := addrTried[bucket][i := ka]];
      assert View().index == t.index[addr := ka.AsEntry()];
    }

    /** An entry is new again, in one bucket. */
    method TakeBack(k: string, newBucket: nat)
      requires Coherent() && k in addrIndex && newBucket < |addrNew|
      modifies this`addrNew, addrIndex[k]
      ensures Coherent()
      ensures View() == var t := old(View());
        t.(index := t.index[k := t.index[k].(tried := false, refs := t.index[k].refs + 1)],
           buckets := t.buckets[newBucket := t.buckets[newBucket] + {k}])
    {
      ghost var t := View();
      var rmka := addrIndex[k];
      SharedAfterAdd(addrIndex, addrNew, addrTried, newBucket, k);
      BucketKeysUpdate(addrNew, newBucket, addrNew[newBucket][k := rmka]);
      assert addrNew[newBucket][k := rmka].Keys == t.buckets[newBucket] + {k};
      rmka.tried := false;
      rmka.refs := rmka.refs + 1;
      addrNew := addrNew[newBucket := addrNew[newBucket][k := rmka]];
      assert View().index == t.index[k := rmka.AsEntry()];
    }

    /** Replace entry `i` of a tried list by an address, and put the displaced entry into a new bucket. */
    method Swap(bucket: nat, i: nat, addr: string, newBucket: nat)
      requires Coherent() && addr in addrIndex && bucket < |addrTried| && i < |addrTried[bucket]|
      requires addrTried[bucket][i].key != addr && newBucket < |addrNew|
      modifies this`addrTried, this`addrNew, addrIndex.Values
      ensures Coherent() && View() == Swapped(old(View()), addr, bucket, i, newBucket)
    {
      var rmka := addrTried[bucket][i];
      assert View().index[rmka.key] == rmka.AsEntry();
      Replace(bucket, i, addr);
      TakeBack(rmka.key, newBucket);
    }

    /** Good's choice when the tried list is full: which entry to displace, and to which new bucket. */
    method Displace(addr: string, bucket: nat, oldBucket: nat, ghost t: Tables) returns (i: nat, newBucket: nat)
      requires Coherent() && |t.buckets| == NEW_BUCKET_COUNT && TriedInv(hs, t) && addr in t.index
      requires View() == PulledOut(t, addr) && bucket < |t.tried| && t.tried[bucket] != [] && !t.index[addr].tried
      requires oldBucket == FirstHome(t.buckets, addr, 0) < NEW_BUCKET_COUNT
      ensures i == FirstEldest(t.index, t.tried[bucket]) < |t.tried[bucket]|
      ensures newBucket == Landing(hs, t, addr, t.tried[bucket][i])
      ensures |addrTried| == |t.tried| && i < |addrTried[bucket]| && addrTried[bucket][i].key != addr
    {
      FirstEldestFrame(t.index, View().index, t.tried[bucket]);
      i := PickTried(bucket);
      var rmka := addrTried[bucket][i];
      assert rmka.key == t.tried[bucket][i] && t.tried[bucket][i] in t.tried[bucket];
      assert View().index[rmka.key] == rmka.AsEntry();
      newBucket := hs.NewBucket(rmka.na, rmka.src);
      assert View().buckets[newBucket] == t.buckets[newBucket] - {addr};
      if |addrNew[newBucket]| >= NEW_BUCKET_SIZE {
        newBucket := oldBucket;
      }
    }

    /** Good when the tried list is full: take the place of its eldest entry. */
    method TakePlace(addr: string, bucket: nat, oldBucket: nat, ghost t: Tables)
      requires Coherent() && |t.buckets| == NEW_BUCKET_COUNT && TriedInv(hs, t) && addr in t.index
      requires View() == PulledOut(t, addr) && !t.index[addr].tried
      requires bucket == hs.TriedBucket(t.index[addr].na) && |t.tried[bucket]| >= TRIED_BUCKET_SIZE
      requires oldBucket == FirstHome(t.buckets, addr, 0) < NEW_BUCKET_COUNT
      modifies this`addrNew, this`addrTried, addrIndex.Values
      ensures Coherent() && View() == Moved(hs, t, addr)
    {
      var i, newBucket := Displace(addr, bucket, oldBucket, t);
      assert addr in View().index;
      Swap(bucket, i, addr, newBucket);
    }

    /** Good when the address was in no bucket: only the count of new addresses has changed. */
    method LoseCount(addr: string, ghost t: Tables)
      requires Coherent() && |t.buckets| == NEW_BUCKET_COUNT && TriedInv(hs, t) && addr in t.index
      requires View() == PulledOut(t, addr) && FirstHome(t.buckets, addr, 0) == |t.buckets|
      modifies this`nNew
      ensures Coherent() && View() == Moved(hs, t, addr)
    {
      nNew := nNew - 1;
    }

    /** Good when the tried list has room: the address goes to its end. */
    method JoinList(addr: string, bucket: nat, ghost t: Tables)
      requires Coherent() && |t.buckets| == NEW_BUCKET_COUNT && TriedInv(hs, t) && addr in t.index
      requires View() == PulledOut(t, addr) && FirstHome(t.buckets, addr, 0) < |t.buckets|
      requires bucket == hs.TriedBucket(t.index[addr].na) && |t.tried[bucket]| < TRIED_BUCKET_SIZE
      modifies this`addrTried, this`nNew, this`nTried, addrIndex.Values
      ensures Coherent() && View() == Moved(hs, t, addr)
    {
      assert addr in View().index;
      Push(bucket, addr);
    }

    /** Good, once the address has been taken out of its new buckets. */
    method Settle(addr: string, oldBucket: int, ghost t: Tables)
      requires Coherent() && |t.buckets| == NEW_BUCKET_COUNT && TriedInv(hs, t) && addr in t.index
      requires View() == PulledOut(t, addr) && !t.index[addr].tried
      requires oldBucket == var b := FirstHome(t.buckets, addr, 0); if b == |t.buckets| then -1 else b
      modifies this`addrNew, this`addrTried, this`nNew, this`nTried, addrIndex.Values
      ensures Coherent() && View() == Moved(hs, t, addr)
    {
      if oldBucket == -1 {
        LoseCount(addr, t);
        return;
      }
      assert addr in View().index && View().index[addr] == addrIndex[addr].AsEntry();
      var bucket := hs.TriedBucket(addrIndex[addr].na);
      if |addrTried[bucket]| < TRIED_BUCKET_SIZE {
        JoinList(addr, bucket, t);
      } else {
        TakePlace(addr, bucket, oldBucket, t);
      }
    }

    /** Good, once the success is recorded: move an address from the new buckets to its tried list. */
    method MoveToTried(addr: string)
      requires Coherent() && |addrNew| == NEW_BUCKET_COUNT && TriedInv(hs, View())
      requires addr in addrIndex && !addrIndex[addr].tried
      modifies this`addrNew, this`addrTried, this`nNew, this`nTried, addrIndex.Values
      ensures Coherent() && View() == Moved(hs, old(View()), addr)
    {
      ghost var t := View();
      assert t.index[addr] == addrIndex[addr].AsEntry();
      var oldBucket := PullOut(addr);
      Settle(addr, oldBucket, t);
    }

    /** The first lines of Good: note the success. */
    method RecordSuccess(addr: string, now: int)
      requires Coherent() && addr in addrIndex
      modifies addrIndex[addr]
      ensures View() == old(View()).(index := old(View()).index[addr :=
                old(View()).index[addr].(lastSuccess := now, lastAttempt := now, attempts := 0)])
    {
      var ka := addrIndex[addr];
      ka.lastSuccess := now;
      ka.lastAttempt := now;
      ka.attempts := 0;
      Touched(addr);
    }

    /** The rest of Good: an address that is tried already stays where it is. */
    method Advance(addr: string)
      requires Valid() && addr in addrIndex
      modifies this`addrNew, this`addrTried, this`nNew, this`nTried, addrIndex.Values
      ensures Coherent()
      ensures View() == var t := old(View()); if t.index[addr].tried then t else Moved(hs, t, addr)
    {
      assert addrIndex[addr].AsEntry() == View().index[addr];
      if !addrIndex[addr].tried {
        MoveToTried(addr);
      }
    }

    /** What Good does to the tables. */
    method Succeed(na: NetAddr, now: int)
      requires Valid()
      modifies this`addrNew, this`addrTried, this`nNew, this`nTried, addrIndex.Values
      ensures Coherent() && View() == Promote(hs, old(View()), na, now)
    {
      var addr := NetAddressKey(na);
      if addr in addrIndex {
        RecordedKeepsInv(hs, View(), addr, now);
        RecordSuccess(addr, now);
        Advance(addr);
      }
    }

    /** Good: record a success and move the address to the tried table. */
    method Good(na: NetAddr, now: int)
      requires Valid()
      modifies this`addrNew, this`addrTried, this`nNew, this`nTried, addrIndex.Values
      ensures Valid() && View() == Promote(hs, old(View()), na, now)
    {
      PromoteKeepsInv(hs, View(), na, now);
      Succeed(na, now);
    }

    method RecordAttempt(na: NetAddr, now: int)
      requires Coherent()
      modifies addrIndex.Values
      ensures Coherent() && View() == Attempted(old(View()), na, now)
    {
      var addr := NetAddressKey(na);
      if addr in addrIndex {
        var ka := addrIndex[addr];
        ka.attempts := ka.attempts + 1;
        ka.lastAttempt := now;
        Touched(addr);
      }
    }

    method Attempt(na: NetAddr, now: int)
      requires Valid()
      modifies addrIndex.Values
      ensures Valid() && View() == Attempted(old(View()), na, now)
    {
      AttemptedKeepsInv(hs, View(), na, now);
      RecordAttempt(na, now);
    }

    method RecordConnection(na: NetAddr, now: int)
      requires Coherent()
      modifies addrIndex.Values
      ensures Coherent() && View() == ConnectedTo(old(View()), na, now)
    {
      var addr := NetAddressKey(na);
      if addr in addrIndex {
        var ka := addrIndex[addr];
        if now > ka.na.timestamp + 1200 {
          ka.na := ka.na.(timestamp := now);
        }
        Touched(addr);
      }
    }

    method Connected(na: NetAddr, now: int)
      requires Valid()
      modifies addrIndex.Values
      ensures Valid() && View() == ConnectedTo(old(View()), na, now)
    {
      ConnectedToKeepsInv(hs, View(), na, now);
      RecordConnection(na, now);
    }

    method RecordServices(na: NetAddr, services: set<nat>)
      requires Coherent()
      modifies addrIndex.Values
      ensures Coherent() && View() == ServicesSet(old(View()), na, services)
    {
      var addr := NetAddressKey(na);
      if addr in addrIndex {
        var ka := addrIndex[addr];
        if ka.na.services != services {
          ka.na := ka.na.(services := services);
        }
        Touched(addr);
      }
    }

    method SetServices(na: NetAddr, services: set<nat>)
      requires Valid()
      modifies addrIndex.Values
      ensures Valid() && View() == ServicesSet(old(View()), na, services)
    {
      ServicesSetKeepsInv(hs, View(), na, services);
      RecordServices(na, services);
    }

    // ---------- Reading the tables ----------

    /** The entry the walk over a new bucket stops to remember: the one reached after `nth` others. */
    method NthOfBucket(bucket: nat, nth: nat) returns (ka: KnownAddress)
      requires bucket < |addrNew| && nth < |addrNew[bucket]|
      ensures ka in addrNew[bucket].Values
    {
      var found: KnownAddress? := null;
      var n: int := nth;
      var todo := addrNew[bucket].Keys;
      while todo != {}
        invariant todo <= addrNew[bucket].Keys && n == nth - |addrNew[bucket].Keys - todo|
        invariant n < 0 ==> found != null && found in addrNew[bucket].Values
      {
        var k :| k in todo;
        assert addrNew[bucket].Keys - (todo - {k}) == addrNew[bucket].Keys - todo + {k};
        if n == 0 {
          found := addrNew[bucket][k];
        }
        n := n - 1;
        todo := todo - {k};
      }
      assert addrNew[bucket].Keys - todo == addrNew[bucket].Keys;
      ka := found;
    }

    /** One turn of GetAddress's loop over the tried table. */
    method DrawTried(d: Draw) returns (r: Option<KnownAddress>)
      requires |addrTried| == TRIED_BUCKET_COUNT
      ensures r.Some? <==> d.accept && addrTried[d.bucket % TRIED_BUCKET_COUNT] != []
      ensures r.Some? ==> r.value in addrTried[d.bucket % TRIED_BUCKET_COUNT]
    {
      var l := addrTried[d.bucket % TRIED_BUCKET_COUNT];
      r := None;
      if l != [] {
        var ka := l[d.entry % |l|];
        if d.accept {
          r := Some(ka);
        }
      }
    }

    /** One turn of GetAddress's loop over the new table. */
    method DrawNew(d: Draw) returns (r: Option<KnownAddress>)
      requires |addrNew| == NEW_BUCKET_COUNT
      ensures r.Some? <==> d.accept && addrNew[d.bucket % NEW_BUCKET_COUNT].Keys != {}
      ensures r.Some? ==> r.value in addrNew[d.bucket % NEW_BUCKET_COUNT].Values
    {
      var bucket := d.bucket % NEW_BUCKET_COUNT;
      r := None;
      if |addrNew[bucket]| != 0 {
        var ka := NthOfBucket(bucket, d.entry % |addrNew[bucket]|);
        if d.accept {
          r := Some(ka);
        }
      }
    }

    /** An object found in either table is the live entry of its key. */
    lemma FoundIsLive(ka: KnownAddress, b: nat, fromTried: bool)
      requires Valid() && b < if fromTried then TRIED_BUCKET_COUNT else NEW_BUCKET_COUNT
      requires if fromTried then ka in addrTried[b] else ka in addrNew[b].Values
      ensures ka.key in addrIndex && addrIndex[ka.key] == ka && ka.tried == fromTried
    {
      if fromTried {
        var i :| 0 <= i < |addrTried[b]| && addrTried[b][i] == ka;
        assert View().tried[b][i] == ka.key;
        assert ka.key in View().tried[b];
      } else {
        assert ka.key in View().buckets[b];
        InNewBucket(hs, View(), b, ka.key);
      }
      assert View().index[ka.key] == ka.AsEntry();
    }

    /** The loop of GetAddress, up to the first draw that ends it. */
    method DrawUntilHit(useTried: bool, draws: seq<Draw>) returns (r: Option<KnownAddress>, n: nat)
      requires |addrNew| == NEW_BUCKET_COUNT && |addrTried| == TRIED_BUCKET_COUNT
      ensures n <= |draws| && (r.Some? <==> n < |draws|)
      ensures forall i :: 0 <= i < n ==> !Lands(useTried, draws[i])
      ensures r.Some? ==> Lands(useTried, draws[n])
      ensures r.Some? ==> if useTried then r.value in addrTried[draws[n].bucket % TRIED_BUCKET_COUNT]
                          else r.value in addrNew[draws[n].bucket % NEW_BUCKET_COUNT].Values
    {
      n := 0;
      while n < |draws|
        invariant n <= |draws| && forall i :: 0 <= i < n ==> !Lands(useTried, draws[i])
      {
        if useTried {
          r := DrawTried(draws[n]);
        } else {
          r := DrawNew(draws[n]);
        }
        if r.Some? {
          return;
        }
        n := n + 1;
      }
      r := None;
    }

    ghost predicate Lands(useTried: bool, d: Draw)
      requires |addrNew| == NEW_BUCKET_COUNT && |addrTried| == TRIED_BUCKET_COUNT
      reads this
    {
      d.accept && if useTried then addrTried[d.bucket % TRIED_BUCKET_COUNT] != []
                  else addrNew[d.bucket % NEW_BUCKET_COUNT].Keys != {}
    }

    lemma LandsIsHits(coin: bool, d: Draw)
      requires |addrNew| == NEW_BUCKET_COUNT && |addrTried| == TRIED_BUCKET_COUNT
      ensures Lands(UsesTried(View(), coin), d) <==> Hits(View(), coin, d)
    {
      var t := View();
      assert |t.tried[d.bucket % TRIED_BUCKET_COUNT]| == |addrTried[d.bucket % TRIED_BUCKET_COUNT]|;
      assert t.buckets[d.bucket % NEW_BUCKET_COUNT] == addrNew[d.bucket % NEW_BUCKET_COUNT].Keys;
    }

    lemma KnownIffCounted()
      requires Valid()
      ensures addrIndex.Keys == {} <==> nTried + nNew == 0
    {
      assert View().index.Keys == addrIndex.Keys;
      if nTried + nNew == 0 {
        EmptyWhenUncounted(hs, View());
      } else {
        CountedWhenKnown(hs, View());
      }
    }

    lemma LandIffHit(coin: bool, draws: seq<Draw>)
      requires |addrNew| == NEW_BUCKET_COUNT && |addrTried| == TRIED_BUCKET_COUNT
      ensures forall i :: 0 <= i < |draws| ==>
        (Lands(UsesTried(View(), coin), draws[i]) <==> Hits(View(), coin, draws[i]))
    {
      forall i | 0 <= i < |draws| ensures Lands(UsesTried(View(), coin), draws[i]) <==> Hits(View(), coin, draws[i]) {
        LandsIsHits(coin, draws[i]);
      }
    }

    /** The draws of GetAddress when some address is known. */
    method DrawLive(useTried: bool, draws: seq<Draw>) returns (r: Option<KnownAddress>)
      requires Valid()
      ensures r.Some? ==> r.value.key in addrIndex && addrIndex[r.value.key] == r.value && r.value.tried == useTried
      ensures r.Some? <==> exists i :: 0 <= i < |draws| && Lands(useTried, draws[i])
    {
      var n;
      r, n := DrawUntilHit(useTried, draws);
      if r.Some? {
        FoundIsLive(r.value, draws[n].bucket % (if useTried then TRIED_BUCKET_COUNT else NEW_BUCKET_COUNT), useTried);
      }
    }

    /** GetAddress, driven by the random draws it makes: nothing when the manager is empty; otherwise
        the first accepted draw of the chosen table.  `None` for a non-empty manager means that the
        given draws are used up and the loop is still going. */
    method GetAddress(coin: bool, draws: seq<Draw>) returns (r: Option<KnownAddress>)
      requires Valid()
      ensures r.Some? ==> r.value.key in addrIndex && addrIndex[r.value.key] == r.value
      ensures r.Some? ==> r.value.tried == UsesTried(View(), coin)
      ensures r.Some? <==> addrIndex.Keys != {} && exists i :: 0 <= i < |draws| && Hits(View(), coin, draws[i])
    {
      KnownIffCounted();
      if nTried + nNew == 0 {
        return None;
      }
      LandIffHit(coin, draws);
      r := DrawLive(nTried > 0 && (nNew == 0 || coin), draws);
    }

    /** Every entry of `s` is the address of a live entry, and no two are the same address. */
    ghost predicate LiveAndDistinct(s: seq<NetAddr>)
      reads this, addrIndex.Values
    {
      && (forall i :: 0 <= i < |s| ==> s[i].endpoint in addrIndex && addrIndex[s[i].endpoint].na == s[i])
      && (forall i, j :: 0 <= i < j < |s| ==> s[i].endpoint != s[j].endpoint)
    }

    /** getAddresses: the addresses of the index, in map order. */
    method GetAddresses() returns (addrs: seq<NetAddr>)
      requires forall k :: k in addrIndex ==> NetAddressKey(addrIndex[k].na) == k
      ensures |addrs| == |addrIndex| && LiveAndDistinct(addrs)
    {
      addrs := [];
      var todo := addrIndex.Keys;
      while todo != {}
        invariant todo <= addrIndex.Keys && |addrs| == |addrIndex| - |todo| && LiveAndDistinct(addrs)
        invariant forall i :: 0 <= i < |addrs| ==> addrs[i].endpoint !in todo
      {
        var k :| k in todo;
        addrs := addrs + [addrIndex[k].na];
        todo := todo - {k};
      }
    }

    /** AddressCache: shuffle the front of the list in place and share at most 23 in 100 of it. */
    method AddressCache(draw: nat -> nat) returns (r: seq<NetAddr>)
      requires Valid()
      ensures LiveAndDistinct(r)
      ensures |r| == var n := |addrIndex| * GET_ADDR_PERCENT / 100; if n > GET_ADDR_MAX then GET_ADDR_MAX else n
    {
      assert forall k :: k in addrIndex ==> View().index[k] == addrIndex[k].AsEntry();
      var addrs := GetAddresses();
      r := Shuffle(addrs, draw);
    }

    method Shuffle(addrs: seq<NetAddr>, draw: nat -> nat) returns (r: seq<NetAddr>)
      requires LiveAndDistinct(addrs)
      ensures LiveAndDistinct(r)
      ensures |r| == var n := |addrs| * GET_ADDR_PERCENT / 100; if n > GET_ADDR_MAX then GET_ADDR_MAX else n
    {
      var a := new NetAddr[|addrs|](i requires 0 <= i < |addrs| => addrs[i]);
      var n := |addrs| * GET_ADDR_PERCENT / 100;
      if n > GET_ADDR_MAX {
        n := GET_ADDR_MAX;
      }
      assert a[..] == addrs;
      for i := 0 to n
        invariant LiveAndDistinct(a[..])
      {
        var j := draw(i) % (a.Length - i) + i;
        a[i], a[j] := a[j], a[i];
      }
      r := a[..n];
    }

    // ---------- Saving and loading ----------

    /** The keys of a map in the order it happened to be walked. */
    method Walk(keys: set<string>) returns (l: seq<string>)
      ensures Lists(l, keys)
    {
      l := [];
      var todo := keys;
      while todo != {}
        invariant todo <= keys && Lists(l, keys - todo)
      {
        var k :| k in todo;
        l := l + [k];
        todo := todo - {k};
      }
    }

    /** savePeers, up to the encoding of the image. */
    method SavePeers() returns (img: Image)
      requires Coherent()
      ensures ImageOf(hs, View(), img)
    {
      ghost var t := View();
      var keys := Walk(addrIndex.Keys);
      var addresses: seq<SavedAddr> := [];
      for i := 0 to |keys|
        invariant forall v :: v in addresses ==> v.addr in t.index && v == SavedAs(v.addr, t.index[v.addr])
        invariant forall j :: 0 <= j < i ==> SavedAs(keys[j], t.index[keys[j]]) in addresses
      {
        assert keys[i] in keys;
        addresses := addresses + [SavedAs(keys[i], addrIndex[keys[i]].AsEntry())];
      }
      forall k | k in t.index ensures SavedAs(k, t.index[k]) in addresses {
        assert k in keys;
      }
      var newBuckets: seq<seq<string>> := [];
      for b := 0 to |addrNew|
        invariant |newBuckets| == b && forall c :: 0 <= c < b ==> Lists(newBuckets[c], t.buckets[c])
      {
        var l := Walk(addrNew[b].Keys);
        newBuckets := newBuckets + [l];
      }
      var triedBuckets: seq<seq<string>> := [];
      for b := 0 to |addrTried|
        invariant |triedBuckets| == b && forall c :: 0 <= c < b ==> triedBuckets[c] == t.tried[c]
      {
        triedBuckets := triedBuckets + [ListKeys(addrTried[b])];
      }
      img := Image(SERIALISATION_VERSION, hs, addresses, newBuckets, triedBuckets);
    }

    /** The loader's step for one key of a new bucket. */
    method PlaceKey(b: nat, k: string)
      requires Coherent() && b < |addrNew| && k in addrIndex
      modifies this`addrNew, this`nNew, addrIndex.Values
      ensures Coherent() && View() == Place(old(View()), b, k)
    {
      ghost var t := View();
      assert t.index[k] == addrIndex[k].AsEntry();
      if addrIndex[k].refs == 0 {
        nNew := nNew + 1;
      }
      assert View() == t.(nNew := nNew);
      AddRef(b, k);
    }

    /** The loader's step for one key of a tried bucket. */
    method MarkKey(b: nat, k: string)
      requires Coherent() && b < |addrTried| && k in addrIndex
      modifies this`addrTried, this`nTried, addrIndex.Values
      ensures Coherent() && View() == Mark(old(View()), b, k)
    {
      ghost var t := View();
      var ka := addrIndex[k];
      SharedAfterTried(addrIndex, addrNew, addrTried, b, k);
      TriedKeysUpdate(addrTried, b, addrTried[b] + [ka]);
      assert ListKeys(addrTried[b] + [ka]) == ListKeys(addrTried[b]) + [k];
      ka.tried := true;
      nTried := nTried + 1;
      addrTried := addrTried[b := addrTried[b] + [ka]];
      assert View().index == t.index[k := ka.AsEntry()];
    }

    method TryPlace(b: nat, k: string, ghost t: Tables, ghost seen: seq<Slot>) returns (ok: bool)
      requires Coherent() && b < |addrNew| == |t.buckets| && Within(seen, |t.buckets|)
      requires PlaceAll(t, seen) == Loaded(View(), true)
      modifies this`addrNew, this`nNew, addrIndex.Values
      ensures Coherent() && |addrNew| == |t.buckets| && Within(seen + [Slot(b, k)], |t.buckets|)
      ensures PlaceAll(t, seen + [Slot(b, k)]) == Loaded(View(), ok)
    {
      PlaceAllStep(t, seen, Slot(b, k));
      assert View().index.Keys == addrIndex.Keys;
      ok := k in addrIndex;
      if ok {
        PlaceKey(b, k);
      }
    }

    method PlaceList(b: nat, l: seq<string>, ghost t: Tables, ghost done: seq<Slot>) returns (ok: bool)
      requires Coherent() && b < |addrNew| == |t.buckets| && Within(done, |t.buckets|)
      requires PlaceAll(t, done) == Loaded(View(), true)
      modifies this`addrNew, this`nNew, addrIndex.Values
      ensures Coherent() && |addrNew| == |t.buckets| && Within(done + SlotsIn(b, l), |t.buckets|)
      ensures PlaceAll(t, done + SlotsIn(b, l)) == Loaded(View(), ok)
    {
      ghost var own := SlotsIn(b, l);
      assert done + own[..0] == done;
      for i := 0 to |l|
        invariant Coherent() && |addrNew| == |t.buckets| && Within(done + own[..i], |t.buckets|)
        invariant PlaceAll(t, done + own[..i]) == Loaded(View(), true)
      {
        TakeOneMore(done, own, i);
        ok := TryPlace(b, l[i], t, done + own[..i]);
        if !ok {
          SlotsInBound(done, b, l, |t.buckets|);
          PlaceAllStops(t, done + own[..i + 1], own[i + 1..]);
          return;
        }
      }
      assert own[..|l|] == own;
      ok := true;
    }

    /** The loader's walk over the new buckets. */
    method PlaceLists(lists: seq<seq<string>>) returns (ok: bool)
      requires Coherent() && |lists| == |addrNew|
      modifies this`addrNew, this`nNew, addrIndex.Values
      ensures Coherent() && Within(Slots(lists), |old(View()).buckets|)
      ensures PlaceAll(old(View()), Slots(lists)) == Loaded(View(), ok)
    {
      ghost var t := View();
      SlotsBound(lists);
      ghost var seen := [];
      for b := 0 to |lists|
        invariant Coherent() && |addrNew| == |t.buckets| && seen == Slots(lists[..b]) && Within(seen, |t.buckets|)
        invariant PlaceAll(t, seen) == Loaded(View(), true)
      {
        SlotsSplit(lists, b);
        ok := PlaceList(b, lists[b], t, seen);
        seen := seen + SlotsIn(b, lists[b]);
        if !ok {
          SlotsPrefix(lists, b + 1);
          ghost var rest :| Slots(lists) == seen + rest;
          PlaceAllStops(t, seen, rest);
          return;
        }
      }
      assert lists[..|lists|] == lists;
      ok := true;
    }

    method TryMark(b: nat, k: string, ghost t: Tables, ghost seen: seq<Slot>) returns (ok: bool)
      requires Coherent() && b < |addrTried| == |t.tried| && Within(seen, |t.tried|)
      requires MarkAll(t, seen) == Loaded(View(), true)
      modifies this`addrTried, this`nTried, addrIndex.Values
      ensures Coherent() && |addrTried| == |t.tried| && Within(seen + [Slot(b, k)], |t.tried|)
      ensures MarkAll(t, seen + [Slot(b, k)]) == Loaded(View(), ok)
    {
      MarkAllStep(t, seen, Slot(b, k));
      assert View().index.Keys == addrIndex.Keys;
      ok := k in addrIndex;
      if ok {
        MarkKey(b, k);
      }
    }

    method MarkList(b: nat, l: seq<string>, ghost t: Tables, ghost done: seq<Slot>) returns (ok: bool)
      requires Coherent() && b < |addrTried| == |t.tried| && Within(done, |t.tried|)
      requires MarkAll(t, done) == Loaded(View(), true)
      modifies this`addrTried, this`nTried, addrIndex.Values
      ensures Coherent() && |addrTried| == |t.tried| && Within(done + SlotsIn(b, l), |t.tried|)
      ensures MarkAll(t, done + SlotsIn(b, l)) == Loaded(View(), ok)
    {
      ghost var own := SlotsIn(b, l);
      assert done + own[..0] == done;
      for i := 0 to |l|
        invariant Coherent() && |addrTried| == |t.tried| && Within(done + own[..i], |t.tried|)
        invariant MarkAll(t, done + own[..i]) == Loaded(View(), true)
      {
        TakeOneMore(done, own, i);
        ok := TryMark(b, l[i], t, done + own[..i]);
        if !ok {
          SlotsInBound(done, b, l, |t.tried|);
          MarkAllStops(t, done + own[..i + 1], own[i + 1..]);
          return;
        }
      }
      assert own[..|l|] == own;
      ok := true;
    }

    /** The loader's walk over the tried buckets. */
    method MarkLists(lists: seq<seq<string>>) returns (ok: bool)
      requires Coherent() && |lists| == |addrTried|
      modifies this`addrTried, this`nTried, addrIndex.Values
      ensures Coherent() && Within(Slots(lists), |old(View()).tried|)
      ensures MarkAll(old(View()), Slots(lists)) == Loaded(View(), ok)
    {
      ghost var t := View();
      SlotsBound(lists);
      ghost var seen := [];
      for b := 0 to |lists|
        invariant Coherent() && |addrTried| == |t.tried| && seen == Slots(lists[..b]) && Within(seen, |t.tried|)
        invariant MarkAll(t, seen) == Loaded(View(), true)
      {
        SlotsSplit(lists, b);
        ok := MarkList(b, lists[b], t, seen);
        seen := seen + SlotsIn(b, lists[b]);
        if !ok {
          SlotsPrefix(lists, b + 1);
          ghost var rest :| Slots(lists) == seen + rest;
          MarkAllStops(t, seen, rest);
          return;
        }
      }
      assert lists[..|lists|] == lists;
      ok := true;
    }

    /** Index a loaded entry, in place of an earlier one with the same key. */
    method Remember(e: Entry)
      requires forall k :: k in addrIndex ==> addrIndex[k].key == k
      requires e.refs == 0 && !e.tried
      modifies this`addrIndex
      ensures forall k :: k in addrIndex ==> addrIndex[k].key == k
      ensures View().index == old(View().index)[NetAddressKey(e.na) := e]
      ensures fresh(addrIndex.Values - old(addrIndex.Values))
    {
      ghost var was := View().index;
      var ka := new KnownAddress(e.na, e.src);
      ka.attempts, ka.lastAttempt, ka.lastSuccess := e.attempts, e.lastAttempt, e.lastSuccess;
      addrIndex := addrIndex[NetAddressKey(e.na) := ka];
      assert View().index == was[NetAddressKey(e.na) := e];
    }

    /** The next of the saved addresses. */
    method LoadNext(env: Env, version: nat, vs: seq<SavedAddr>, n: nat) returns (ok: bool)
      requires n < |vs| && LoadEntries(env, version, vs[..n]) == Parsed(View().index, true)
      requires forall k :: k in addrIndex ==> addrIndex[k].key == k
      modifies this`addrIndex
      ensures LoadEntries(env, version, vs[..n + 1]) == Parsed(View().index, ok)
      ensures forall k :: k in addrIndex ==> addrIndex[k].key == k
      ensures fresh(addrIndex.Values - old(addrIndex.Values))
    {
      assert vs[..n + 1][..n] == vs[..n];
      var e := LoadEntry(env, version, env.clock(2 * n), env.clock(2 * n + 1), vs[n]);
      ok := e.Some?;
      if ok {
        Remember(e.value);
      }
    }

    /** The loader's pass over the saved addresses. */
    method LoadAddresses(env: Env, version: nat, vs: seq<SavedAddr>) returns (ok: bool)
      requires addrIndex == map[]
      modifies this`addrIndex
      ensures LoadEntries(env, version, vs) == Parsed(View().index, ok)
      ensures forall k :: k in addrIndex ==> addrIndex[k].key == k
      ensures fresh(addrIndex.Values)
    {
      assert View().index == map[];
      for n := 0 to |vs|
        invariant fresh(addrIndex.Values) && forall k :: k in addrIndex ==> addrIndex[k].key == k
        invariant LoadEntries(env, version, vs[..n]) == Parsed(View().index, true)
      {
        ok := LoadNext(env, version, vs, n);
        if !ok {
          LoadEntriesStops(env, version, vs, n + 1);
          return;
        }
      }
      assert vs[..|vs|] == vs;
      ok := true;
    }

    /** The sanity checks at the end of a load. */
    method CheckSane() returns (ok: bool)
      ensures ok == Sane(View().index)
    {
      ghost var index := View().index;
      var todo := addrIndex.Keys;
      while todo != {}
        invariant todo <= addrIndex.Keys
        invariant forall k :: k in addrIndex.Keys - todo ==>
          !(index[k].refs == 0 && !index[k].tried) && !(index[k].refs > 0 && index[k].tried)
      {
        var k :| k in todo;
        var v := addrIndex[k];
        assert index[k] == v.AsEntry();
        if v.refs == 0 && !v.tried {
          return false;
        }
        if v.refs > 0 && v.tried {
          return false;
        }
        todo := todo - {k};
      }
      return true;
    }

    /** deserializePeers, after the decoding of the file, on a manager that has just been made. */
    method DeserializePeers(env: Env, img: Image) returns (ok: bool)
      requires Coherent() && View() == EMPTY && Shaped(img)
      modifies this
      ensures Coherent() && Load(env, img) == Loaded(View(), ok)
      ensures ok ==> hs == img.hasher
    {
      assert addrIndex == map[] by { assert View().index.Keys == addrIndex.Keys; }
      if img.version > SERIALISATION_VERSION {
        return false;
      }
      hs := img.hasher;
      ok := LoadAddresses(env, img.version, img.addresses);
      SharedWhenEmpty(addrIndex, addrNew, addrTried);
      assert View() == Indexed(View().index);
      if ok {
        ok := PlaceLists(img.newBuckets);
        if ok {
          ok := MarkLists(img.triedBuckets);
          if ok {
            ok := CheckSane();
          }
        }
      }
    }
  }
}
