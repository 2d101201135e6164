/**
 Loading any peers file at all: exactly when the load succeeds, and exactly when the tables it leaves are
 consistent.  The sanity checks of the loader do not see everything.
 */
module AddrLoad {
  import opened Common
  import opened AddrTables
  import opened AddrTableProofs
  import opened AddrImage

  // ---------- Places listed more than once ----------

  function CountOf(slots: seq<Slot>, k: string): nat {
    if slots == [] then 0
    else CountOf(slots[..|slots| - 1], k) + if slots[|slots| - 1].key == k then 1 else 0
  }

  predicate Listed(slots: seq<Slot>, index: map<string, Entry>, n: nat) {
    forall s :: s in slots ==> s.bucket < n && s.key in index
  }

  predicate AllBare(index: map<string, Entry>) {
    forall k :: k in index ==> index[k].refs == 0 && !index[k].tried && NetAddressKey(index[k].na) == k
  }

  lemma NoSlots()
    ensures BucketsOf([]) == NoBuckets() && forall k :: Homes(NoBuckets(), k) == {}
  {
    forall b | 0 <= b < NEW_BUCKET_COUNT ensures BucketsOf([])[b] == NoBuckets()[b] {
      assert KeysAt([], b) == {};
    }
    forall k ensures Homes(NoBuckets(), k) == {} {
    }
  }

  /** Placing counts every listed place, also one that is listed again. */
  lemma {:induction false} PlaceAllRefs(index: map<string, Entry>, slots: seq<Slot>)
    requires AllBare(index) && Listed(slots, index, NEW_BUCKET_COUNT)
    ensures
      var r := PlaceAll(Indexed(index), slots);
      && r.ok && r.tables.buckets == BucketsOf(slots)
      && forall k :: k in index ==> r.tables.index[k].refs == CountOf(slots, k)
    decreases |slots|
  {
    if slots == [] {
      NoSlots();
    } else {
      var front, last := slots[..|slots| - 1], slots[|slots| - 1];
      assert slots == front + [last] && last in slots;
      PlaceAllRefs(index, front);
      BucketsOfMore(front, last.bucket, last.key);
    }
  }

  /** No place of the key is listed twice. */
  predicate Once(slots: seq<Slot>, k: string) {
    forall i, j :: 0 <= i < j < |slots| && slots[i].key == k ==> slots[i] != slots[j]
  }

  lemma OnceMore(slots: seq<Slot>, s: Slot, k: string)
    ensures Once(slots + [s], k) <==> Once(slots, k) && (s.key == k ==> s !in slots)
  {
    var more := slots + [s];
    assert forall i, j :: 0 <= i < j < |slots| ==> slots[i] == more[i] && slots[j] == more[j];
    if s in slots {
      var i :| 0 <= i < |slots| && slots[i] == s;
      assert more[i] == more[|slots|] == s;
    }
  }

  lemma InBucketsOf(slots: seq<Slot>, s: Slot)
    requires s.bucket < NEW_BUCKET_COUNT
    ensures s.key in BucketsOf(slots)[s.bucket] <==> s in slots
  {
    if s.key in KeysAt(slots, s.bucket) {
      var p :| p in slots && p.bucket == s.bucket && p.key == s.key;
    }
  }

  lemma HomesOfMore(slots: seq<Slot>, s: Slot, k: string)
    requires s.bucket < NEW_BUCKET_COUNT
    ensures |Homes(BucketsOf(slots + [s]), k)| ==
      |Homes(BucketsOf(slots), k)| + if s.key == k && s !in slots then 1 else 0
  {
    BucketsOfMore(slots, s.bucket, s.key);
    HomesOfAdd(BucketsOf(slots), s.bucket, s.key, k);
    InBucketsOf(slots, s);
    if s.key == k {
      assert s.bucket in Homes(BucketsOf(slots), k) <==> s in slots;
      if s in slots {
        assert Homes(BucketsOf(slots), k) + {s.bucket} == Homes(BucketsOf(slots), k);
      }
    }
  }

  lemma CountOfMore(slots: seq<Slot>, s: Slot, k: string)
    ensures CountOf(slots + [s], k) == CountOf(slots, k) + if s.key == k then 1 else 0
  {
    assert (slots + [s])[..|slots|] == slots;
  }

  /** A key's places are as many as its buckets exactly when none is listed twice. */
  lemma {:induction false} CountsHomesIff(slots: seq<Slot>, k: string)
    requires Within(slots, NEW_BUCKET_COUNT)
    ensures |Homes(BucketsOf(slots), k)| <= CountOf(slots, k)
    ensures CountOf(slots, k) == |Homes(BucketsOf(slots), k)| <==> Once(slots, k)
    decreases |slots|
  {
    if slots == [] {
      NoSlots();
    } else {
      var front, last := slots[..|slots| - 1], slots[|slots| - 1];
      assert slots == front + [last] && last in slots;
      assert forall s :: s in front ==> s in slots;
      CountsHomesIff(front, k);
      OnceMore(front, last, k);
      HomesOfMore(front, last, k);
      CountOfMore(front, last, k);
    }
  }

  lemma OnceForAll(slots: seq<Slot>)
    ensures NoDuplicates(slots) <==> forall k :: Once(slots, k)
  {
    if forall k :: Once(slots, k) {
      forall i, j | 0 <= i < j < |slots| ensures slots[i] != slots[j] {
        assert Once(slots, slots[i].key);
      }
    }
  }

  // ---------- When a load succeeds ----------

  lemma {:induction false} EntriesAreBare(env: Env, version: nat, vs: seq<SavedAddr>)
    ensures AllBare(LoadEntries(env, version, vs).index)
    decreases |vs|
  {
    if vs == [] {
    } else {
      EntriesAreBare(env, version, vs[..|vs| - 1]);
    }
  }

  lemma {:induction false} PlacesIffListed(t: Tables, slots: seq<Slot>)
    requires Within(slots, |t.buckets|)
    ensures PlaceAll(t, slots).ok <==> forall s :: s in slots ==> s.key in t.index
    decreases |slots|
  {
    if slots == [] {
    } else {
      var front, last := slots[..|slots| - 1], slots[|slots| - 1];
      assert slots == front + [last];
      PlacesIffListed(t, front);
    }
  }

  lemma {:induction false} MarksIffListed(t: Tables, slots: seq<Slot>)
    requires Within(slots, |t.tried|)
    ensures MarkAll(t, slots).ok <==> forall s :: s in slots ==> s.key in t.index
    decreases |slots|
  {
    if slots == [] {
    } else {
      var front, last := slots[..|slots| - 1], slots[|slots| - 1];
      assert slots == front + [last];
      MarksIffListed(t, front);
    }
  }

  function NewSlots(img: Image): seq<Slot> {
    Slots(img.newBuckets)
  }

  function TriedSlotsOf(img: Image): seq<Slot> {
    Slots(img.triedBuckets)
  }

  function IndexOf(env: Env, img: Image): map<string, Entry> {
    LoadEntries(env, img.version, img.addresses).index
  }

  /** The file is not too new, its addresses parse, every key listed is among them, and each of them is listed
      among the new or among the tried, and not both. */
  predicate Complete(env: Env, img: Image) {
    var news, trieds, index := KeysOf(NewSlots(img)), KeysOf(TriedSlotsOf(img)), IndexOf(env, img);
    && img.version <= SERIALISATION_VERSION && LoadEntries(env, img.version, img.addresses).ok
    && news <= index.Keys && trieds <= index.Keys
    && forall k :: k in index ==> (k in news <==> k !in trieds)
  }

  lemma {:induction false} CountedIffKey(slots: seq<Slot>, k: string)
    ensures CountOf(slots, k) > 0 <==> k in KeysOf(slots)
    decreases |slots|
  {
    if slots == [] {
    } else {
      var front, last := slots[..|slots| - 1], slots[|slots| - 1];
      assert slots == front + [last];
      CountedIffKey(front, k);
      KeysOfMore(front, last);
    }
  }

  lemma KeysIffListed(slots: seq<Slot>, index: map<string, Entry>)
    ensures KeysOf(slots) <= index.Keys <==> forall s :: s in slots ==> s.key in index
  {
    assert forall s :: s in slots ==> s.key in KeysOf(slots);
  }

  /** What a load that gets as far as the sanity checks has in its tables. */
  lemma TablesLoaded(index: map<string, Entry>, slots: seq<Slot>, marks: seq<Slot>)
    requires AllBare(index) && Listed(slots, index, NEW_BUCKET_COUNT) && Listed(marks, index, TRIED_BUCKET_COUNT)
    ensures Within(slots, NEW_BUCKET_COUNT) && PlaceAll(Indexed(index), slots).ok
    ensures
      var placed := PlaceAll(Indexed(index), slots).tables;
      && Within(marks, |placed.tried|) && MarkAll(placed, marks).ok
      && var t := MarkAll(placed, marks).tables;
      && t.index.Keys == index.Keys && t.buckets == BucketsOf(slots) && t.tried == ListsOf(marks)
      && t.nNew == placed.nNew && t.nTried == |marks|
      && forall k :: k in index ==>
           t.index[k].refs == CountOf(slots, k) && (t.index[k].tried <==> k in KeysOf(marks))
  {
    PlaceAllRefs(index, slots);
    var placed := PlaceAll(Indexed(index), slots).tables;
    PlaceKeepsRest(Indexed(index), slots);
    MarkAllCounts(placed, marks);
  }

  lemma {:induction false} PlaceKeepsRest(t: Tables, slots: seq<Slot>)
    requires Within(slots, |t.buckets|)
    ensures
      var r := PlaceAll(t, slots).tables;
      && r.tried == t.tried && r.nTried == t.nTried
      && forall k :: k in t.index ==> r.index[k] == t.index[k].(refs := r.index[k].refs)
    decreases |slots|
  {
    if slots == [] {
    } else {
      PlaceKeepsRest(t, slots[..|slots| - 1]);
    }
  }

  lemma SlotsListed(img: Image, index: map<string, Entry>)
    requires Shaped(img)
    requires KeysOf(NewSlots(img)) <= index.Keys && KeysOf(TriedSlotsOf(img)) <= index.Keys
    ensures Listed(NewSlots(img), index, NEW_BUCKET_COUNT) && Listed(TriedSlotsOf(img), index, TRIED_BUCKET_COUNT)
  {
    SlotsBound(img.newBuckets);
    SlotsBound(img.triedBuckets);
    KeysIffListed(NewSlots(img), index);
    KeysIffListed(TriedSlotsOf(img), index);
  }

  /** The tables before the sanity checks are sane exactly when each address is listed once among the two. */
  lemma SaneIff(index: map<string, Entry>, slots: seq<Slot>, marks: seq<Slot>)
    requires AllBare(index) && Listed(slots, index, NEW_BUCKET_COUNT) && Listed(marks, index, TRIED_BUCKET_COUNT)
    ensures Within(slots, NEW_BUCKET_COUNT) && Within(marks, |PlaceAll(Indexed(index), slots).tables.tried|)
    ensures Sane(MarkAll(PlaceAll(Indexed(index), slots).tables, marks).tables.index) <==>
      forall k :: k in index ==> (k in KeysOf(slots) <==> k !in KeysOf(marks))
  {
    TablesLoaded(index, slots, marks);
    var t := MarkAll(PlaceAll(Indexed(index), slots).tables, marks).tables;
    forall k | k in index ensures t.index[k].refs > 0 <==> k in KeysOf(slots) {
      CountedIffKey(slots, k);
    }
  }

  /** A load succeeds exactly for complete files. */
  lemma LoadSucceedsIff(env: Env, img: Image)
    requires Shaped(img)
    ensures Load(env, img).ok <==> Complete(env, img)
  {
    var r := LoadEntries(env, img.version, img.addresses);
    EntriesAreBare(env, img.version, img.addresses);
    SlotsBound(img.newBuckets);
    SlotsBound(img.triedBuckets);
    if img.version <= SERIALISATION_VERSION && r.ok {
      PlacesIffListed(Indexed(r.index), NewSlots(img));
      KeysIffListed(NewSlots(img), r.index);
      KeysIffListed(TriedSlotsOf(img), r.index);
      var placed := PlaceAll(Indexed(r.index), NewSlots(img));
      MarksIffListed(placed.tables, TriedSlotsOf(img));
      if KeysOf(NewSlots(img)) <= r.index.Keys && KeysOf(TriedSlotsOf(img)) <= r.index.Keys {
        SlotsListed(img, r.index);
        SaneIff(r.index, NewSlots(img), TriedSlotsOf(img));
      }
    }
  }

  // ---------- When the loaded tables are consistent ----------

  /** The tried lists hold no key twice, at most 256, and each where its hash puts it. */
  predicate TriedTidy(env: Env, img: Image)
    requires Shaped(img)
  {
    && (forall b :: 0 <= b < TRIED_BUCKET_COUNT ==>
          |img.triedBuckets[b]| <= TRIED_BUCKET_SIZE && NoDuplicates(img.triedBuckets[b]))
    && (forall b, k :: 0 <= b < TRIED_BUCKET_COUNT && k in img.triedBuckets[b] ==>
          k in IndexOf(env, img) && img.hasher.TriedBucket(IndexOf(env, img)[k].na) == b)
  }

  /** No new bucket lists a key twice or holds more than 65, no key is in more than eight of them, and the tried
      lists are tidy. */
  predicate Tidy(env: Env, img: Image)
    requires Shaped(img)
  {
    var index, buckets := IndexOf(env, img), BucketsOf(NewSlots(img));
    && NoDuplicates(NewSlots(img))
    && (forall b :: 0 <= b < NEW_BUCKET_COUNT ==> |buckets[b]| <= NEW_BUCKET_SIZE + 1)
    && (forall k :: k in index ==> |Homes(buckets, k)| <= NEW_BUCKETS_PER_ADDRESS)
    && TriedTidy(env, img)
  }

  /** What is known of the tables of a complete file. */
  lemma LoadedShape(env: Env, img: Image)
    requires Shaped(img) && Complete(env, img)
    ensures Load(env, img).ok
    ensures
      var t, index := Load(env, img).tables, IndexOf(env, img);
      && t.index.Keys == index.Keys && t.buckets == BucketsOf(NewSlots(img)) && t.tried == img.triedBuckets
      && t.nTried == |TriedSlotsOf(img)|
      && forall k :: k in index ==>
           && t.index[k].refs == CountOf(NewSlots(img), k) && NetAddressKey(t.index[k].na) == k
           && t.index[k].na == index[k].na && (t.index[k].tried <==> k in KeysOf(TriedSlotsOf(img)))
           && (t.index[k].tried <==> t.index[k].refs == 0)
  {
    var index, slots, marks := IndexOf(env, img), NewSlots(img), TriedSlotsOf(img);
    LoadSucceedsIff(env, img);
    EntriesAreBare(env, img.version, img.addresses);
    SlotsListed(img, index);
    TablesLoaded(index, slots, marks);
    PlaceKeepsRest(Indexed(index), slots);
    MarkAllCounts(PlaceAll(Indexed(index), slots).tables, marks);
    forall b | 0 <= b < TRIED_BUCKET_COUNT ensures ListsOf(marks)[b] == img.triedBuckets[b] {
      ListAtSlots(img.triedBuckets, b);
    }
    assert ListsOf(marks) == img.triedBuckets;
    forall k | k in index ensures CountOf(slots, k) > 0 <==> k in KeysOf(slots) {
      CountedIffKey(slots, k);
    }
  }

  lemma NewAfterPlace(index: map<string, Entry>, front: seq<Slot>, last: Slot)
    requires AllBare(index) && Listed(front + [last], index, NEW_BUCKET_COUNT) && Listed(front, index, NEW_BUCKET_COUNT)
    requires PlaceAll(Indexed(index), front).tables.nNew == |KeysOf(front)|
    ensures PlaceAll(Indexed(index), front + [last]).tables.nNew ==
      |KeysOf(front)| + if last.key in KeysOf(front) then 0 else 1
  {
    assert last in front + [last];
    PlaceAllRefs(index, front);
    CountedIffKey(front, last.key);
    PlaceAllStep(Indexed(index), front, last);
  }

  /** The counter of new addresses counts the keys listed. */
  lemma {:induction false} PlaceAllNew(index: map<string, Entry>, slots: seq<Slot>)
    requires AllBare(index) && Listed(slots, index, NEW_BUCKET_COUNT)
    ensures Within(slots, NEW_BUCKET_COUNT) && PlaceAll(Indexed(index), slots).tables.nNew == |KeysOf(slots)|
    decreases |slots|
  {
    if slots == [] {
      assert KeysOf(slots) == {};
    } else {
      var front, last := slots[..|slots| - 1], slots[|slots| - 1];
      assert slots == front + [last];
      PlaceAllNew(index, front);
      NewAfterPlace(index, front, last);
      KeysOfMore(front, last);
      if last.key in KeysOf(front) {
        assert KeysOf(front) + {last.key} == KeysOf(front);
      }
    }
  }

  lemma NewAreCounted(env: Env, img: Image)
    requires Shaped(img) && Complete(env, img)
    ensures Load(env, img).ok && Load(env, img).tables.nNew == |NewKeys(Load(env, img).tables.index)|
  {
    var index, slots := IndexOf(env, img), NewSlots(img);
    EntriesAreBare(env, img.version, img.addresses);
    LoadedShape(env, img);
    SlotsListed(img, index);
    PlaceAllNew(index, slots);
    TablesLoaded(index, slots, TriedSlotsOf(img));
    assert NewKeys(Load(env, img).tables.index) == KeysOf(slots);
  }

  lemma OnceForKeys(slots: seq<Slot>, index: map<string, Entry>)
    requires Listed(slots, index, NEW_BUCKET_COUNT)
    ensures NoDuplicates(slots) <==> forall k :: k in index ==> Once(slots, k)
  {
    OnceForAll(slots);
    forall k | k !in index ensures Once(slots, k) {
      assert forall i :: 0 <= i < |slots| ==> slots[i] in slots;
    }
  }

  lemma IndexInvShape(t: Tables, slots: seq<Slot>)
    requires Listed(slots, t.index, NEW_BUCKET_COUNT) && t.buckets == BucketsOf(slots)
    requires forall k :: k in t.index ==> t.index[k].refs == CountOf(slots, k) && NetAddressKey(t.index[k].na) == k
    ensures IndexInv(t) <==>
      NoDuplicates(slots) && forall k :: k in t.index ==> |Homes(t.buckets, k)| <= NEW_BUCKETS_PER_ADDRESS
  {
    forall k | k in t.index ensures t.index[k].refs == |Homes(t.buckets, k)| <==> Once(slots, k) {
      CountsHomesIff(slots, k);
    }
    OnceForKeys(slots, t.index);
  }

  /** The reference counts are right exactly when no place is listed twice, and no key is in too many buckets. */
  lemma IndexInvIff(env: Env, img: Image)
    requires Shaped(img) && Complete(env, img)
    ensures Load(env, img).ok
    ensures IndexInv(Load(env, img).tables) <==>
      && NoDuplicates(NewSlots(img))
      && forall k :: k in IndexOf(env, img) ==> |Homes(BucketsOf(NewSlots(img)), k)| <= NEW_BUCKETS_PER_ADDRESS
  {
    LoadedShape(env, img);
    SlotsListed(img, IndexOf(env, img));
    IndexInvShape(Load(env, img).tables, NewSlots(img));
  }

  lemma NewInvIff(env: Env, img: Image)
    requires Shaped(img) && Complete(env, img)
    ensures Load(env, img).ok
    ensures NewInv(Load(env, img).tables) <==>
      forall b :: 0 <= b < NEW_BUCKET_COUNT ==> |BucketsOf(NewSlots(img))[b]| <= NEW_BUCKET_SIZE + 1
  {
    LoadedShape(env, img);
    var index, slots := IndexOf(env, img), NewSlots(img);
    forall b | 0 <= b < NEW_BUCKET_COUNT ensures BucketsOf(slots)[b] <= index.Keys {
      assert forall k :: k in KeysAt(slots, b) ==> k in KeysOf(slots);
    }
  }

  lemma MarkedIffListed(img: Image, k: string)
    requires Shaped(img)
    ensures k in KeysOf(TriedSlotsOf(img)) <==> exists b :: 0 <= b < TRIED_BUCKET_COUNT && k in img.triedBuckets[b]
  {
    if k in KeysOf(TriedSlotsOf(img)) {
      var s :| s in TriedSlotsOf(img) && s.key == k;
      SlotsMembers(img.triedBuckets, s);
    }
    if b :| 0 <= b < TRIED_BUCKET_COUNT && k in img.triedBuckets[b] {
      SlotsMembers(img.triedBuckets, Slot(b, k));
      assert Slot(b, k).key in KeysOf(TriedSlotsOf(img));
    }
  }

  /** The tables' tried lists, with an entry flagged exactly when it is listed. */
  ghost predicate FlaggedAsListed(t: Tables) {
    && |t.tried| == TRIED_BUCKET_COUNT
    && (forall b, k :: 0 <= b < TRIED_BUCKET_COUNT && k in t.tried[b] ==> k in t.index && t.index[k].tried)
    && (forall k :: k in t.index && t.index[k].tried ==> exists b :: 0 <= b < TRIED_BUCKET_COUNT && k in t.tried[b])
  }

  lemma TriedInvShape(hs: Hasher, t: Tables)
    requires FlaggedAsListed(t)
    ensures TriedInv(hs, t) <==>
      && (forall b :: 0 <= b < TRIED_BUCKET_COUNT ==> |t.tried[b]| <= TRIED_BUCKET_SIZE && NoDuplicates(t.tried[b]))
      && (forall b, k :: 0 <= b < TRIED_BUCKET_COUNT && k in t.tried[b] ==> hs.TriedBucket(t.index[k].na) == b)
  {
  }

  lemma LoadedFlags(env: Env, img: Image)
    requires Shaped(img) && Complete(env, img)
    ensures Load(env, img).ok && FlaggedAsListed(Load(env, img).tables)
  {
    LoadedShape(env, img);
    var t, index := Load(env, img).tables, IndexOf(env, img);
    forall k | k in t.index && t.index[k].tried ensures exists b :: 0 <= b < TRIED_BUCKET_COUNT && k in t.tried[b] {
      MarkedIffListed(img, k);
    }
    forall b, k | 0 <= b < TRIED_BUCKET_COUNT && k in t.tried[b] ensures k in t.index && t.index[k].tried {
      MarkedIffListed(img, k);
    }
  }

  lemma TriedInvIff(env: Env, img: Image)
    requires Shaped(img) && Complete(env, img)
    ensures Load(env, img).ok
    ensures TriedInv(img.hasher, Load(env, img).tables) <==> TriedTidy(env, img)
  {
    LoadedShape(env, img);
    LoadedFlags(env, img);
    TriedInvShape(img.hasher, Load(env, img).tables);
  }

  lemma CountInvHolds(env: Env, img: Image)
    requires Shaped(img) && Complete(env, img) && Load(env, img).ok
    requires TriedInv(img.hasher, Load(env, img).tables)
    ensures CountInv(Load(env, img).tables, {})
  {
    LoadedShape(env, img);
    NewAreCounted(env, img);
    TriedSlots(img.hasher, Load(env, img).tables);
  }

  /** After any load that succeeds the tables are consistent exactly when the file is tidy. */
  lemma LoadedInvIff(env: Env, img: Image)
    requires Shaped(img) && Complete(env, img)
    ensures Inv(img.hasher, LoadPeers(env, img)) <==> Tidy(env, img)
  {
    IndexInvIff(env, img);
    NewInvIff(env, img);
    TriedInvIff(env, img);
    if TriedInv(img.hasher, Load(env, img).tables) {
      CountInvHolds(env, img);
    }
  }

  /** For every file: the tables after loading it are consistent exactly when it is complete and tidy, or the
      load gave up before it had put any key in a table. */
  lemma LoadInvIff(env: Env, img: Image)
    requires Shaped(img)
    ensures Inv(img.hasher, LoadPeers(env, img)) <==>
      if Complete(env, img) then Tidy(env, img) else GivesUpEarly(env, img)
  {
    LoadSucceedsIff(env, img);
    if Complete(env, img) {
      LoadedInvIff(env, img);
    } else {
      FailedLoadInvIff(img.hasher, env, img);
    }
  }

  // A file that loads and is not tidy.

  /** One address, listed twice in the tried list its hash puts it in. */
  function TwiceTried(hs: Hasher): (img: Image)
    ensures Shaped(img)
  {
    var home := hs.TriedBucket(NetAddr("a", 0, {}));
    Image(2, hs, [SavedAddr("a", "a", 0, 0, 0, 0, {}, {})], seq(NEW_BUCKET_COUNT, _ => []),
          seq(TRIED_BUCKET_COUNT, b => if b == home then ["a", "a"] else []))
  }

  lemma {:induction false} NothingListed(lists: seq<seq<string>>)
    requires forall b :: 0 <= b < |lists| ==> lists[b] == []
    ensures Slots(lists) == []
    decreases |lists|
  {
    if lists == [] {
    } else {
      NothingListed(lists[..|lists| - 1]);
    }
  }

  /** Both sanity checks let that file pass, and the tables hold the address twice. */
  lemma UntidyExample(hs: Hasher)
    ensures
      var env, img := Env(a => Some(a), _ => 0), TwiceTried(hs);
      Load(env, img).ok && !Inv(hs, LoadPeers(env, img))
  {
    var env, img := Env(a => Some(a), _ => 0), TwiceTried(hs);
    var home, index := hs.TriedBucket(NetAddr("a", 0, {})), IndexOf(env, img);
    assert img.addresses[..0] == [];
    assert index.Keys == {"a"};
    NothingListed(img.newBuckets);
    assert KeysOf(NewSlots(img)) == {};
    forall k ensures k in KeysOf(TriedSlotsOf(img)) <==> k == "a" {
      MarkedIffListed(img, k);
      assert k == "a" ==> k in img.triedBuckets[home];
    }
    LoadInvIff(env, img);
    LoadSucceedsIff(env, img);
    assert !NoDuplicates(img.triedBuckets[home]) by {
      assert img.triedBuckets[home][0] == img.triedBuckets[home][1];
    }
  }

  // ---------- What is remembered of a loaded address ----------

  /** Loading an address leaves of what was saved last under its key: the attempts and their times, and the
      services, which a file of the first version does not have.  The times it was seen are the clock's. */
  lemma {:induction false} LoadedFrom(env: Env, version: nat, vs: seq<SavedAddr>, k: string) returns (j: nat)
    requires k in LoadEntries(env, version, vs).index
    ensures
      var e := LoadEntries(env, version, vs).index[k];
      && j < |vs| && env.parse(vs[j].addr) == Some(k) && env.parse(vs[j].src) == Some(e.src.endpoint)
      && e.na == NetAddr(k, env.clock(2 * j), if version == 1 then {0} else vs[j].services)
      && e.src.timestamp == env.clock(2 * j + 1) && e.src.services == (if version == 1 then {0} else vs[j].srcServices)
      && e.attempts == vs[j].attempts && e.lastAttempt == vs[j].lastAttempt && e.lastSuccess == vs[j].lastSuccess
      && (LoadEntries(env, version, vs).ok ==> forall i :: j < i < |vs| ==> env.parse(vs[i].addr) != Some(k))
    decreases |vs|
  {
    var n := |vs| - 1;
    var front := LoadEntries(env, version, vs[..n]);
    var e := LoadEntry(env, version, env.clock(2 * n), env.clock(2 * n + 1), vs[n]);
    if front.ok && e.Some? && NetAddressKey(e.value.na) == k {
      j := n;
    } else {
      j := LoadedFrom(env, version, vs[..n], k);
    }
  }

  /** The same addresses, with what is remembered of them. */
  predicate Remembered(index: map<string, Entry>, index': map<string, Entry>) {
    && index'.Keys == index.Keys
    && forall k :: k in index ==> index'[k] == index[k].(refs := index'[k].refs, tried := index'[k].tried)
  }

  lemma {:induction false} PlacingRemembers(t: Tables, slots: seq<Slot>)
    requires Within(slots, |t.buckets|)
    ensures Remembered(t.index, PlaceAll(t, slots).tables.index)
    decreases |slots|
  {
    if slots == [] {
    } else {
      PlacingRemembers(t, slots[..|slots| - 1]);
    }
  }

  lemma {:induction false} MarkingRemembers(t: Tables, slots: seq<Slot>)
    requires Within(slots, |t.tried|)
    ensures Remembered(t.index, MarkAll(t, slots).tables.index)
    decreases |slots|
  {
    if slots == [] {
    } else {
      MarkingRemembers(t, slots[..|slots| - 1]);
    }
  }

  /** Placing keys in buckets and lists changes nothing else of the addresses loaded. */
  lemma LoadRemembers(env: Env, img: Image)
    requires Shaped(img) && img.version <= SERIALISATION_VERSION
    ensures Remembered(LoadEntries(env, img.version, img.addresses).index, Load(env, img).tables.index)
  {
    var index := LoadEntries(env, img.version, img.addresses).index;
    SlotsBound(img.newBuckets);
    SlotsBound(img.triedBuckets);
    PlacingRemembers(Indexed(index), Slots(img.newBuckets));
    MarkingRemembers(PlaceAll(Indexed(index), Slots(img.newBuckets)).tables, Slots(img.triedBuckets));
  }
}
