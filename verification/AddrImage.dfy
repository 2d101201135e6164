/**
 The saved form of the address tables.  It holds neither the reference counts nor the tried flags nor
 the counters: loading works them out again from where each key is listed.
 */
module AddrImage {
  import opened Common
  import opened AddrTables
  import opened AddrTableProofs

  const SERIALISATION_VERSION: nat := 2

  /** The service bit assumed for an address saved by the first version. */
  const NODE_NETWORK: set<nat> := {0}

  datatype SavedAddr = SavedAddr(
    addr: string, src: string, attempts: int, timeStamp: int, lastAttempt: int, lastSuccess: int,
    services: set<nat>, srcServices: set<nat>)

  datatype Image = Image(
    version: nat, hasher: Hasher, addresses: seq<SavedAddr>, newBuckets: seq<seq<string>>,
    triedBuckets: seq<seq<string>>)

  function SavedAs(k: string, e: Entry): SavedAddr {
    SavedAddr(k, NetAddressKey(e.src), e.attempts, e.na.timestamp, e.lastAttempt, e.lastSuccess,
              e.na.services, e.src.services)
  }

  ghost predicate Lists(l: seq<string>, s: set<string>) {
    NoDuplicates(l) && forall k :: k in l <==> k in s
  }

  /** What savePeers writes for the tables `t`, in whatever order the maps were walked. */
  ghost predicate ImageOf(hs: Hasher, t: Tables, img: Image) {
    && img.version == SERIALISATION_VERSION && img.hasher == hs
    && (forall v :: v in img.addresses ==> v.addr in t.index && v == SavedAs(v.addr, t.index[v.addr]))
    && (forall k :: k in t.index ==> SavedAs(k, t.index[k]) in img.addresses)
    && |img.newBuckets| == |t.buckets|
    && (forall b :: 0 <= b < |t.buckets| ==> Lists(img.newBuckets[b], t.buckets[b]))
    && img.triedBuckets == t.tried
  }

  // ---------- Loading ----------

  /** What loading takes from outside: the address parser, and the readings of the clock. */
  datatype Env = Env(parse: string -> Option<string>, clock: nat -> int)

  /** A place a key is listed at. */
  datatype Slot = Slot(bucket: nat, key: string)

  predicate Within(slots: seq<Slot>, n: nat) {
    forall s :: s in slots ==> s.bucket < n
  }

  datatype Parsed = Parsed(index: map<string, Entry>, ok: bool)

  datatype Loaded = Loaded(tables: Tables, ok: bool)

  /** Tables with an index and nothing else. */
  function Indexed(index: map<string, Entry>): Tables {
    Tables(index, NoBuckets(), NoLists(), 0, 0)
  }

  /** The entry for a saved address, or nothing when either of its addresses cannot be parsed. */
  function LoadEntry(env: Env, version: nat, t1: int, t2: int, v: SavedAddr): Option<Entry> {
    match (env.parse(v.addr), env.parse(v.src))
    case (Some(a), Some(s)) =>
      Some(Entry(NetAddr(a, t1, if version == 1 then NODE_NETWORK else v.services),
                 NetAddr(s, t2, if version == 1 then NODE_NETWORK else v.srcServices),
                 v.attempts, v.lastAttempt, v.lastSuccess, 0, false))
    case _ => None
  }

  /** The index after the saved addresses, as far as they can be parsed, and whether all could be. */
  function LoadEntries(env: Env, version: nat, vs: seq<SavedAddr>)
    : Parsed
  {
    if vs == [] then Parsed(map[], true)
    else
      var n := |vs| - 1;
      var front := LoadEntries(env, version, vs[..n]);
      var e := LoadEntry(env, version, env.clock(2 * n), env.clock(2 * n + 1), vs[n]);
      if !front.ok || e.None? then Parsed(front.index, false)
      else Parsed(front.index[NetAddressKey(e.value.na) := e.value], true)
  }

  /** The places listed by a sequence of buckets, in the order loading visits them. */
  function Slots(lists: seq<seq<string>>): seq<Slot> {
    if lists == [] then [] else Slots(lists[..|lists| - 1]) + SlotsIn(|lists| - 1, lists[|lists| - 1])
  }

  function SlotsIn(b: nat, l: seq<string>): (r: seq<Slot>)
    ensures |r| == |l| && forall i :: 0 <= i < |l| ==> r[i] == Slot(b, l[i])
  {
    seq(|l|, i requires 0 <= i < |l| => Slot(b, l[i]))
  }

  function Place(t: Tables, b: nat, k: string): Tables
    requires b < |t.buckets| && k in t.index
  {
    WithRef(t, b, k).(nNew := if t.index[k].refs == 0 then t.nNew + 1 else t.nNew)
  }

  function Mark(t: Tables, b: nat, k: string): Tables
    requires b < |t.tried| && k in t.index
  {
    t.(index := t.index[k := t.index[k].(tried := true)],
       tried := t.tried[b := t.tried[b] + [k]], nTried := t.nTried + 1)
  }

  /** Visit the listed places in order, up to the first key that is not in the index. */
  function PlaceAll(t: Tables, slots: seq<Slot>): (r: Loaded)
    requires Within(slots, |t.buckets|)
    ensures |r.tables.buckets| == |t.buckets| && r.tables.tried == t.tried && r.tables.index.Keys == t.index.Keys
  {
    if slots == [] then Loaded(t, true)
    else
      var front, last := PlaceAll(t, slots[..|slots| - 1]), slots[|slots| - 1];
      assert last in slots;
      if !front.ok || last.key !in front.tables.index then Loaded(front.tables, false)
      else Loaded(Place(front.tables, last.bucket, last.key), true)
  }

  function MarkAll(t: Tables, slots: seq<Slot>): (r: Loaded)
    requires Within(slots, |t.tried|)
    ensures |r.tables.tried| == |t.tried| && r.tables.buckets == t.buckets && r.tables.index.Keys == t.index.Keys
  {
    if slots == [] then Loaded(t, true)
    else
      var front, last := MarkAll(t, slots[..|slots| - 1]), slots[|slots| - 1];
      assert last in slots;
      if !front.ok || last.key !in front.tables.index then Loaded(front.tables, false)
      else Loaded(Mark(front.tables, last.bucket, last.key), true)
  }

  /** The sanity checks at the end of a load. */
  predicate Sane(index: map<string, Entry>) {
    forall k :: k in index ==> !(index[k].refs == 0 && !index[k].tried) && !(index[k].refs > 0 && index[k].tried)
  }

  function Checked(r: Loaded): Loaded {
    Loaded(r.tables, r.ok && Sane(r.tables.index))
  }

  predicate Shaped(img: Image) {
    |img.newBuckets| == NEW_BUCKET_COUNT && |img.triedBuckets| == TRIED_BUCKET_COUNT
  }

  lemma {:induction false} SlotsBound(lists: seq<seq<string>>)
    ensures Within(Slots(lists), |lists|)
  {
    if lists == [] {
    } else {
      SlotsBound(lists[..|lists| - 1]);
    }
  }

  /** The part of deserializePeers that follows the addresses. */
  function LoadTables(loaded: Parsed, slots: seq<Slot>, triedSlots: seq<Slot>)
    : Loaded
    requires Within(slots, NEW_BUCKET_COUNT)
    requires Within(triedSlots, TRIED_BUCKET_COUNT)
  {
    if !loaded.ok then Loaded(Indexed(loaded.index), false)
    else
      var placed := PlaceAll(Indexed(loaded.index), slots);
      if !placed.ok then placed else Checked(MarkAll(placed.tables, triedSlots))
  }

  /** deserializePeers on an empty manager: the tables it leaves, and whether it succeeds. */
  function Load(env: Env, img: Image): (r: Loaded)
    requires Shaped(img)
  {
    SlotsBound(img.newBuckets);
    SlotsBound(img.triedBuckets);
    if img.version > SERIALISATION_VERSION then Loaded(EMPTY, false)
    else LoadTables(LoadEntries(env, img.version, img.addresses), Slots(img.newBuckets), Slots(img.triedBuckets))
  }

  /** reset empties the tables but leaves the counters as they are. */
  function Reset(t: Tables): Tables {
    Tables(map[], NoBuckets(), NoLists(), t.nNew, t.nTried)
  }

  /** loadPeers: a failed load is followed by a reset. */
  function LoadPeers(env: Env, img: Image): Tables
    requires Shaped(img)
  {
    var loaded := Load(env, img);
    if loaded.ok then loaded.tables else Reset(loaded.tables)
  }

  lemma TakeOneMore(done: seq<Slot>, own: seq<Slot>, i: nat)
    requires i < |own|
    ensures done + own[..i] + [own[i]] == done + own[..i + 1]
    ensures done + own[..i + 1] + own[i + 1..] == done + own
  {
    assert own[..i] + [own[i]] == own[..i + 1];
    assert own[..i + 1] + own[i + 1..] == own;
  }

  lemma SlotsInBound(done: seq<Slot>, b: nat, l: seq<string>, n: nat)
    requires Within(done, n) && b < n
    ensures Within(done + SlotsIn(b, l), n)
  {
  }

  lemma PlaceAllStep(t: Tables, slots: seq<Slot>, s: Slot)
    requires Within(slots, |t.buckets|) && s.bucket < |t.buckets|
    ensures Within(slots + [s], |t.buckets|)
    ensures
      var front := PlaceAll(t, slots);
      PlaceAll(t, slots + [s]) ==
        if !front.ok || s.key !in front.tables.index then Loaded(front.tables, false)
        else Loaded(Place(front.tables, s.bucket, s.key), true)
  {
    assert (slots + [s])[..|slots|] == slots;
  }

  lemma MarkAllStep(t: Tables, slots: seq<Slot>, s: Slot)
    requires Within(slots, |t.tried|) && s.bucket < |t.tried|
    ensures Within(slots + [s], |t.tried|)
    ensures
      var front := MarkAll(t, slots);
      MarkAll(t, slots + [s]) ==
        if !front.ok || s.key !in front.tables.index then Loaded(front.tables, false)
        else Loaded(Mark(front.tables, s.bucket, s.key), true)
  {
    assert (slots + [s])[..|slots|] == slots;
  }

  lemma {:induction false} PlaceAllStops(t: Tables, slots: seq<Slot>, rest: seq<Slot>)
    requires Within(slots + rest, |t.buckets|) && Within(slots, |t.buckets|)
    requires !PlaceAll(t, slots).ok
    ensures PlaceAll(t, slots + rest) == PlaceAll(t, slots)
  {
    if rest == [] {
      assert slots + rest == slots;
    } else {
      var front := rest[..|rest| - 1];
      assert (slots + rest)[..|slots + rest| - 1] == slots + front;
      forall s | s in slots + front ensures s.bucket < |t.buckets| {
        assert s in slots + rest;
      }
      PlaceAllStops(t, slots, front);
    }
  }

  lemma {:induction false} MarkAllStops(t: Tables, slots: seq<Slot>, rest: seq<Slot>)
    requires Within(slots + rest, |t.tried|) && Within(slots, |t.tried|)
    requires !MarkAll(t, slots).ok
    ensures MarkAll(t, slots + rest) == MarkAll(t, slots)
  {
    if rest == [] {
      assert slots + rest == slots;
    } else {
      var front := rest[..|rest| - 1];
      assert (slots + rest)[..|slots + rest| - 1] == slots + front;
      forall s | s in slots + front ensures s.bucket < |t.tried| {
        assert s in slots + rest;
      }
      MarkAllStops(t, slots, front);
    }
  }

  lemma {:induction false} LoadEntriesStops(env: Env, version: nat, vs: seq<SavedAddr>, n: nat)
    requires n <= |vs| && !LoadEntries(env, version, vs[..n]).ok
    ensures LoadEntries(env, version, vs) == LoadEntries(env, version, vs[..n])
  {
    if n == |vs| {
      assert vs[..n] == vs;
    } else {
      assert vs[..|vs| - 1][..n] == vs[..n];
      LoadEntriesStops(env, version, vs[..|vs| - 1], n);
    }
  }

  lemma SlotsSplit(lists: seq<seq<string>>, i: nat)
    requires i < |lists|
    ensures Slots(lists[..i + 1]) == Slots(lists[..i]) + SlotsIn(i, lists[i])
  {
    assert lists[..i + 1][..i] == lists[..i];
  }

  lemma {:induction false} SlotsPrefix(lists: seq<seq<string>>, i: nat)
    requires i <= |lists|
    ensures exists rest :: Slots(lists) == Slots(lists[..i]) + rest
  {
    if i == |lists| {
      assert lists[..i] == lists;
      assert Slots(lists) == Slots(lists) + [];
    } else {
      var front := lists[..|lists| - 1];
      SlotsPrefix(front, i);
      assert front[..i] == lists[..i];
      var rest :| Slots(front) == Slots(front[..i]) + rest;
      assert Slots(lists) == Slots(lists[..i]) + (rest + SlotsIn(|lists| - 1, lists[|lists| - 1]));
    }
  }

  // ---------- Round trip ----------

  /** An entry as it comes back: everything but the two times last seen, which are not read back. */
  predicate SameButSeen(e: Entry, e': Entry) {
    e' == e.(na := e.na.(timestamp := e'.na.timestamp), src := e.src.(timestamp := e'.src.timestamp))
  }

  /** The entry before the loader has visited any place. */
  predicate Bare(e: Entry, e': Entry) {
    SameButSeen(e.(refs := 0, tried := false), e')
  }

  ghost predicate Parses(env: Env, t: Tables) {
    forall k :: k in t.index ==>
      env.parse(k) == Some(k) && env.parse(NetAddressKey(t.index[k].src)) == Some(NetAddressKey(t.index[k].src))
  }

  lemma EntryComesBack(env: Env, t: Tables, k: string, t1: int, t2: int)
    requires IndexInv(t) && Parses(env, t) && k in t.index
    ensures
      var e := LoadEntry(env, SERIALISATION_VERSION, t1, t2, SavedAs(k, t.index[k]));
      e.Some? && NetAddressKey(e.value.na) == k && Bare(t.index[k], e.value)
  {
  }

  /** The part of the index that has come back so far. */
  ghost predicate BackSoFar(t: Tables, vs: seq<SavedAddr>, index: map<string, Entry>) {
    && (forall v :: v in vs ==> v.addr in index)
    && (forall k :: k in index ==> k in t.index && Bare(t.index[k], index[k]))
  }

  lemma OneMoreBack(t: Tables, vs: seq<SavedAddr>, index: map<string, Entry>, v: SavedAddr, e: Entry)
    requires BackSoFar(t, vs, index) && v.addr in t.index && Bare(t.index[v.addr], e)
    ensures BackSoFar(t, vs + [v], index[v.addr := e])
  {
  }

  lemma {:induction false} EntriesComeBack(env: Env, t: Tables, vs: seq<SavedAddr>)
    requires IndexInv(t) && Parses(env, t)
    requires forall v :: v in vs ==> v.addr in t.index && v == SavedAs(v.addr, t.index[v.addr])
    ensures var r := LoadEntries(env, SERIALISATION_VERSION, vs); r.ok && BackSoFar(t, vs, r.index)
  {
    if vs == [] {
    } else {
      var n := |vs| - 1;
      var front := LoadEntries(env, SERIALISATION_VERSION, vs[..n]);
      var t1, t2 := env.clock(2 * n), env.clock(2 * n + 1);
      EntriesComeBack(env, t, vs[..n]);
      assert vs[n] in vs && vs == vs[..n] + [vs[n]];
      EntryComesBack(env, t, vs[n].addr, t1, t2);
      OneMoreBack(t, vs[..n], front.index, vs[n], LoadEntry(env, SERIALISATION_VERSION, t1, t2, vs[n]).value);
    }
  }

  /** Where the slots put the keys. */
  function KeysAt(slots: seq<Slot>, b: int): set<string> {
    set s | s in slots && s.bucket == b :: s.key
  }

  function BucketsOf(slots: seq<Slot>): (r: seq<set<string>>)
    ensures |r| == NEW_BUCKET_COUNT && forall b :: 0 <= b < |r| ==> r[b] == KeysAt(slots, b)
  {
    seq(NEW_BUCKET_COUNT, b => KeysAt(slots, b))
  }

  function Homed(index: map<string, Entry>, buckets: seq<set<string>>): set<string> {
    set k | k in index && Homes(buckets, k) != {}
  }

  /** The tables whose index is `index` with references counted from `buckets`. */
  function Placed(index: map<string, Entry>, buckets: seq<set<string>>): Tables {
    Tables(map k | k in index :: index[k].(refs := |Homes(buckets, k)|), buckets, NoLists(),
           |Homed(index, buckets)|, 0)
  }

  lemma PlaceOneIndex(index: map<string, Entry>, buckets: seq<set<string>>, b: nat, k: string)
    requires b < |buckets| && k in index && k !in buckets[b]
    ensures Place(Placed(index, buckets), b, k).index == Placed(index, buckets[b := buckets[b] + {k}]).index
  {
    var buckets' := buckets[b := buckets[b] + {k}];
    forall q | q in index ensures |Homes(buckets', q)| == |Homes(buckets, q)| + (if q == k then 1 else 0) {
      HomesOfAdd(buckets, b, k, q);
    }
  }

  lemma PlaceOneCount(index: map<string, Entry>, buckets: seq<set<string>>, b: nat, k: string)
    requires b < |buckets| && k in index
    ensures |Homed(index, buckets[b := buckets[b] + {k}])| ==
            |Homed(index, buckets)| + (if |Homes(buckets, k)| == 0 then 1 else 0)
  {
    var buckets' := buckets[b := buckets[b] + {k}];
    HomedAfterAdd(index, buckets, b, k);
    if Homes(buckets, k) == {} {
      assert k !in Homed(index, buckets);
    } else {
      assert k in Homed(index, buckets);
      assert Homed(index, buckets) + {k} == Homed(index, buckets);
    }
  }

  lemma HomedAfterAdd(index: map<string, Entry>, buckets: seq<set<string>>, b: nat, k: string)
    requires b < |buckets| && k in index
    ensures Homed(index, buckets[b := buckets[b] + {k}]) == Homed(index, buckets) + {k}
  {
    var buckets' := buckets[b := buckets[b] + {k}];
    forall q | q in index ensures Homes(buckets', q) != {} <==> Homes(buckets, q) != {} || q == k {
      HomesOfAdd(buckets, b, k, q);
      if q == k { assert b in Homes(buckets', q); }
    }
  }

  lemma PlaceOne(index: map<string, Entry>, buckets: seq<set<string>>, b: nat, k: string)
    requires b < |buckets| && k in index && k !in buckets[b]
    ensures Place(Placed(index, buckets), b, k) == Placed(index, buckets[b := buckets[b] + {k}])
  {
    PlaceOneIndex(index, buckets, b, k);
    PlaceOneCount(index, buckets, b, k);
  }

  lemma BucketsOfMore(slots: seq<Slot>, b: nat, k: string)
    requires b < NEW_BUCKET_COUNT
    ensures BucketsOf(slots + [Slot(b, k)]) == BucketsOf(slots)[b := BucketsOf(slots)[b] + {k}]
  {
    var r := BucketsOf(slots)[b := BucketsOf(slots)[b] + {k}];
    forall c | 0 <= c < NEW_BUCKET_COUNT ensures BucketsOf(slots + [Slot(b, k)])[c] == r[c] {
      KeysAtMore(slots, c, b, k);
    }
  }

  lemma KeysAtMore(slots: seq<Slot>, c: nat, b: nat, k: string)
    ensures KeysAt(slots + [Slot(b, k)], c) == KeysAt(slots, c) + (if c == b then {k} else {})
  {
    var more := slots + [Slot(b, k)];
    forall q | q in KeysAt(slots, c) ensures q in KeysAt(more, c) {
      assert Slot(c, q) in more;
    }
    if c == b { assert Slot(b, k) in more; }
  }

  lemma {:induction false} PlaceAllCounts(index: map<string, Entry>, slots: seq<Slot>)
    requires forall k :: k in index ==> index[k].refs == 0
    requires forall s :: s in slots ==> s.bucket < NEW_BUCKET_COUNT && s.key in index
    requires NoDuplicates(slots)
    ensures PlaceAll(Indexed(index), slots) == Loaded(Placed(index, BucketsOf(slots)), true)
  {
    if slots == [] {
      forall b | 0 <= b < NEW_BUCKET_COUNT ensures BucketsOf(slots)[b] == NoBuckets()[b] {
        assert KeysAt(slots, b) == {};
      }
      assert BucketsOf(slots) == NoBuckets();
      forall k ensures Homes(BucketsOf(slots), k) == {} {}
      assert Homed(index, BucketsOf(slots)) == {};
      assert Placed(index, BucketsOf(slots)).index == index;
    } else {
      var front, last := slots[..|slots| - 1], slots[|slots| - 1];
      assert slots == front + [last];
      PlaceAllCounts(index, front);
      BucketsOfMore(front, last.bucket, last.key);
      assert last !in front;
      PlaceOne(index, BucketsOf(front), last.bucket, last.key);
    }
  }

  /** The keys listed for bucket `b`, in order. */
  function ListAt(slots: seq<Slot>, b: int): seq<string> {
    if slots == [] then []
    else ListAt(slots[..|slots| - 1], b) +
         if slots[|slots| - 1].bucket == b then [slots[|slots| - 1].key] else []
  }

  function ListsOf(slots: seq<Slot>): (r: seq<seq<string>>)
    ensures |r| == TRIED_BUCKET_COUNT && forall b :: 0 <= b < |r| ==> r[b] == ListAt(slots, b)
  {
    seq(TRIED_BUCKET_COUNT, b => ListAt(slots, b))
  }

  function KeysOf(slots: seq<Slot>): set<string> {
    set s | s in slots :: s.key
  }

  function Flagged(index: map<string, Entry>, ks: set<string>): map<string, Entry> {
    map k | k in index :: if k in ks then index[k].(tried := true) else index[k]
  }

  lemma KeysOfMore(slots: seq<Slot>, s: Slot)
    ensures KeysOf(slots + [s]) == KeysOf(slots) + {s.key}
  {
    var more := slots + [s];
    forall q | q in KeysOf(slots) ensures q in KeysOf(more) {
      var p :| p in slots && p.key == q;
      assert p in more;
    }
    assert s in more;
  }

  lemma MarkOne(t: Tables, index: map<string, Entry>, slots: seq<Slot>, s: Slot)
    requires s.bucket < TRIED_BUCKET_COUNT && s.key in index
    requires t.index == Flagged(index, KeysOf(slots)) && t.tried == ListsOf(slots)
    ensures Mark(t, s.bucket, s.key) ==
            Tables(Flagged(index, KeysOf(slots + [s])), t.buckets, ListsOf(slots + [s]), t.nNew, t.nTried + 1)
  {
    KeysOfMore(slots, s);
    assert (slots + [s])[..|slots|] == slots;
    var l := t.tried[s.bucket := t.tried[s.bucket] + [s.key]];
    forall b | 0 <= b < TRIED_BUCKET_COUNT ensures l[b] == ListsOf(slots + [s])[b] {}
    assert l == ListsOf(slots + [s]);
  }

  lemma {:induction false} MarkAllCounts(t: Tables, slots: seq<Slot>)
    requires t.tried == NoLists() && t.nTried == 0
    requires forall s :: s in slots ==> s.bucket < TRIED_BUCKET_COUNT && s.key in t.index
    ensures MarkAll(t, slots) ==
            Loaded(Tables(Flagged(t.index, KeysOf(slots)), t.buckets, ListsOf(slots), t.nNew, |slots|), true)
  {
    if slots == [] {
      assert Flagged(t.index, KeysOf(slots)) == t.index;
      forall b | 0 <= b < TRIED_BUCKET_COUNT ensures ListsOf(slots)[b] == NoLists()[b] {}
      assert ListsOf(slots) == NoLists();
    } else {
      var front, last := slots[..|slots| - 1], slots[|slots| - 1];
      assert slots == front + [last] && last in slots;
      MarkAllCounts(t, front);
      MarkOne(MarkAll(t, front).tables, t.index, front, last);
    }
  }

  // ---------- The slots of a sequence of buckets ----------

  lemma {:induction false} SlotsMembers(lists: seq<seq<string>>, s: Slot)
    ensures s in Slots(lists) <==> s.bucket < |lists| && s.key in lists[s.bucket]
  {
    if lists == [] {
    } else {
      var n := |lists| - 1;
      SlotsMembers(lists[..n], s);
      var own := SlotsIn(n, lists[n]);
      if s.bucket == n && s.key in lists[n] {
        var i :| 0 <= i < |lists[n]| && lists[n][i] == s.key;
        assert own[i] == s;
      }
    }
  }

  lemma {:induction false} SlotsNoDuplicates(lists: seq<seq<string>>)
    requires forall b :: 0 <= b < |lists| ==> NoDuplicates(lists[b])
    ensures NoDuplicates(Slots(lists))
  {
    if lists == [] {
    } else {
      var n := |lists| - 1;
      SlotsNoDuplicates(lists[..n]);
      SlotsBound(lists[..n]);
      var front, own := Slots(lists[..n]), SlotsIn(n, lists[n]);
      forall i, j | 0 <= i < j < |front + own| ensures (front + own)[i] != (front + own)[j] {
        if i < |front| <= j { assert front[i] in front; }
      }
    }
  }

  lemma {:induction false} ListAtJoin(front: seq<Slot>, own: seq<Slot>, b: int)
    ensures ListAt(front + own, b) == ListAt(front, b) + ListAt(own, b)
  {
    if own == [] {
      assert front + own == front;
    } else {
      var n := |own| - 1;
      ListAtJoin(front, own[..n], b);
      assert (front + own)[..|front + own| - 1] == front + own[..n];
    }
  }

  lemma {:induction false} ListAtOwn(c: nat, l: seq<string>, b: int)
    ensures ListAt(SlotsIn(c, l), b) == if b == c then l else []
  {
    if l == [] {
    } else {
      var n := |l| - 1;
      ListAtOwn(c, l[..n], b);
      assert SlotsIn(c, l)[..n] == SlotsIn(c, l[..n]);
      assert l == l[..n] + [l[n]];
    }
  }

  lemma {:induction false} ListAtSlots(lists: seq<seq<string>>, b: nat)
    ensures ListAt(Slots(lists), b) == if b < |lists| then lists[b] else []
  {
    if lists == [] {
    } else {
      var n := |lists| - 1;
      ListAtSlots(lists[..n], b);
      ListAtJoin(Slots(lists[..n]), SlotsIn(n, lists[n]), b);
      ListAtOwn(n, lists[n], b);
    }
  }

  lemma {:induction false} DistinctKeysCount(slots: seq<Slot>)
    requires forall i, j :: 0 <= i < j < |slots| ==> slots[i].key != slots[j].key
    ensures |KeysOf(slots)| == |slots|
  {
    if slots == [] {
    } else {
      var front, last := slots[..|slots| - 1], slots[|slots| - 1];
      DistinctKeysCount(front);
      assert slots == front + [last];
      KeysOfMore(front, last);
    }
  }

  // ---------- Saving and loading ----------

  /** The same tables, apart from the times the addresses were last seen. */
  ghost predicate SameTables(t: Tables, t': Tables) {
    && t'.index.Keys == t.index.Keys
    && (forall k :: k in t.index ==> SameButSeen(t.index[k], t'.index[k]))
    && t'.buckets == t.buckets && t'.tried == t.tried && t'.nNew == t.nNew && t'.nTried == t.nTried
  }

  lemma IndexComesBack(hs: Hasher, env: Env, t: Tables, img: Image)
    requires IndexInv(t) && ImageOf(hs, t, img) && Parses(env, t)
    ensures
      var r := LoadEntries(env, img.version, img.addresses);
      && r.ok && r.index.Keys == t.index.Keys
      && forall k :: k in t.index ==> Bare(t.index[k], r.index[k])
  {
    EntriesComeBack(env, t, img.addresses);
    var r := LoadEntries(env, img.version, img.addresses);
    forall k | k in t.index ensures k in r.index {
      assert SavedAs(k, t.index[k]).addr == k;
    }
  }

  lemma BucketsComeBack(hs: Hasher, t: Tables, img: Image, index: map<string, Entry>)
    requires NewInv(t) && ImageOf(hs, t, img) && index.Keys == t.index.Keys
    requires forall k :: k in index ==> index[k].refs == 0
    ensures Within(Slots(img.newBuckets), NEW_BUCKET_COUNT)
    ensures PlaceAll(Indexed(index), Slots(img.newBuckets)) == Loaded(Placed(index, t.buckets), true)
  {
    var slots := Slots(img.newBuckets);
    SlotsBound(img.newBuckets);
    SlotsNoDuplicates(img.newBuckets);
    forall s | s in slots ensures s.key in index {
      SlotsMembers(img.newBuckets, s);
    }
    forall b | 0 <= b < NEW_BUCKET_COUNT ensures BucketsOf(slots)[b] == t.buckets[b] {
      forall k ensures k in KeysAt(slots, b) <==> k in t.buckets[b] {
        SlotsMembers(img.newBuckets, Slot(b, k));
        assert k in KeysAt(slots, b) <==> Slot(b, k) in slots;
      }
    }
    assert BucketsOf(slots) == t.buckets;
    PlaceAllCounts(index, slots);
  }

  lemma TriedSlots(hs: Hasher, t: Tables)
    requires TriedInv(hs, t)
    ensures KeysOf(Slots(t.tried)) == TriedKeys(t.index) && |Slots(t.tried)| == |TriedKeys(t.index)|
    ensures ListsOf(Slots(t.tried)) == t.tried
  {
    var slots := Slots(t.tried);
    forall s | s in slots ensures s.key in TriedKeys(t.index) && s.bucket == hs.TriedBucket(t.index[s.key].na) {
      SlotsMembers(t.tried, s);
    }
    forall k | k in TriedKeys(t.index) ensures k in KeysOf(slots) {
      var s := Slot(hs.TriedBucket(t.index[k].na), k);
      SlotsMembers(t.tried, s);
    }
    SlotsNoDuplicates(t.tried);
    forall i, j | 0 <= i < j < |slots| ensures slots[i].key != slots[j].key {
      assert slots[i] in slots && slots[j] in slots;
    }
    DistinctKeysCount(slots);
    forall b | 0 <= b < TRIED_BUCKET_COUNT ensures ListsOf(slots)[b] == t.tried[b] {
      ListAtSlots(t.tried, b);
    }
  }

  lemma TriedComeBack(hs: Hasher, t: Tables, placed: Tables)
    requires TriedInv(hs, t) && placed.index.Keys == t.index.Keys && placed.tried == NoLists() && placed.nTried == 0
    ensures Within(Slots(t.tried), TRIED_BUCKET_COUNT)
    ensures MarkAll(placed, Slots(t.tried)) == Loaded(
              Tables(Flagged(placed.index, TriedKeys(t.index)), placed.buckets, t.tried, placed.nNew,
                     |TriedKeys(t.index)|),
              true)
  {
    var slots := Slots(t.tried);
    SlotsBound(t.tried);
    TriedSlots(hs, t);
    forall s | s in slots ensures s.key in placed.index {
      assert s.key in KeysOf(slots);
    }
    MarkAllCounts(placed, slots);
  }

  lemma HomedAreNew(hs: Hasher, t: Tables, index: map<string, Entry>)
    requires Inv(hs, t) && index.Keys == t.index.Keys
    ensures Homed(index, t.buckets) == NewKeys(t.index)
  {
    forall k | k in t.index ensures Homes(t.buckets, k) != {} <==> !t.index[k].tried {
      assert |Homes(t.buckets, k)| == 0 <==> Homes(t.buckets, k) == {};
    }
  }

  /** The loaded tables, from an index that came back bare. */
  function Rebuilt(t: Tables, index: map<string, Entry>): Tables {
    Tables(Flagged(Placed(index, t.buckets).index, TriedKeys(t.index)), t.buckets, t.tried,
           |Homed(index, t.buckets)|, |TriedKeys(t.index)|)
  }

  lemma SaneWhenSame(hs: Hasher, t: Tables, t': Tables)
    requires Inv(hs, t) && SameTables(t, t')
    ensures Sane(t'.index)
  {
  }

  lemma RebuiltIsSame(hs: Hasher, t: Tables, index: map<string, Entry>)
    requires Inv(hs, t) && index.Keys == t.index.Keys
    requires forall k :: k in t.index ==> Bare(t.index[k], index[k])
    ensures SameTables(t, Rebuilt(t, index)) && Sane(Rebuilt(t, index).index)
  {
    HomedAreNew(hs, t, index);
    var t' := Rebuilt(t, index);
    forall k | k in t.index ensures SameButSeen(t.index[k], t'.index[k]) {
      assert index[k].refs == 0 && !index[k].tried;
      assert t'.index[k].refs == |Homes(t.buckets, k)| == t.index[k].refs;
    }
    SaneWhenSame(hs, t, t');
  }

  lemma SameTablesInv(hs: Hasher, t: Tables, t': Tables)
    requires Inv(hs, t) && SameTables(t, t')
    ensures Inv(hs, t')
  {
    TriedFrame(hs, t, t');
    CountFrame(t, t');
  }

  /** Loading what was saved always succeeds, and restores every key, bucket, list, reference count,
      flag and counter. */
  lemma RoundTrip(hs: Hasher, env: Env, t: Tables, img: Image)
    requires Inv(hs, t) && ImageOf(hs, t, img) && Parses(env, t)
    ensures Shaped(img) && Load(env, img).ok && SameTables(t, Load(env, img).tables)
    ensures Inv(img.hasher, LoadPeers(env, img))
  {
    var index := LoadEntries(env, img.version, img.addresses).index;
    IndexComesBack(hs, env, t, img);
    BucketsComeBack(hs, t, img, index);
    TriedComeBack(hs, t, Placed(index, t.buckets));
    RebuiltIsSame(hs, t, index);
    SameTablesInv(hs, t, Rebuilt(t, index));
  }

  // ---------- A load that fails ----------

  lemma ResetInvIff(hs: Hasher, t: Tables)
    ensures Inv(hs, Reset(t)) <==> t.nNew == 0 && t.nTried == 0
  {
    EmptyInv(hs);
    assert NewKeys(map[]) == {} == TriedKeys(map[]);
  }

  lemma {:induction false} PlaceAllCounter(t: Tables, slots: seq<Slot>)
    requires Within(slots, |t.buckets|)
    requires t.nNew == 0 && forall k :: k in t.index ==> t.index[k].refs == 0
    ensures
      var r := PlaceAll(t, slots);
      && r.tables.nNew >= 0 && r.tables.nTried == t.nTried
      && (r.tables.nNew > 0 <==> slots != [] && slots[0].key in t.index)
      && (slots != [] && slots[0].key !in t.index ==> !r.ok)
  {
    if slots == [] {
    } else {
      PlaceAllCounter(t, slots[..|slots| - 1]);
    }
  }

  lemma {:induction false} MarkAllCounter(t: Tables, slots: seq<Slot>)
    requires Within(slots, |t.tried|)
    requires t.nTried == 0
    ensures
      var r := MarkAll(t, slots);
      && r.tables.nTried >= 0 && r.tables.nNew == t.nNew
      && (r.tables.nTried > 0 <==> slots != [] && slots[0].key in t.index)
      && (slots != [] && slots[0].key !in t.index ==> !r.ok)
  {
    if slots == [] {
    } else {
      MarkAllCounter(t, slots[..|slots| - 1]);
    }
  }

  /** The load gives up before it has put any key in a table: the file is too new, an address does not
      parse, or the first listed key, if there is one, is not among the addresses. */
  predicate GivesUpEarly(env: Env, img: Image) {
    var all := Slots(img.newBuckets) + Slots(img.triedBuckets);
    var r := LoadEntries(env, img.version, img.addresses);
    img.version > SERIALISATION_VERSION || !r.ok || all == [] || all[0].key !in r.index
  }

  lemma {:induction false} LoadedBare(env: Env, version: nat, vs: seq<SavedAddr>)
    ensures forall k :: k in LoadEntries(env, version, vs).index ==> LoadEntries(env, version, vs).index[k].refs == 0
  {
    if vs == [] {
    } else {
      LoadedBare(env, version, vs[..|vs| - 1]);
    }
  }

  /** After a failed load the tables are consistent exactly when it gave up early; the reset that follows
      leaves the counters where the load left them. */
  lemma FailedLoadInvIff(hs: Hasher, env: Env, img: Image)
    requires Shaped(img) && !Load(env, img).ok
    ensures Inv(hs, LoadPeers(env, img)) <==> GivesUpEarly(env, img)
  {
    ResetInvIff(hs, Load(env, img).tables);
    if img.version <= SERIALISATION_VERSION {
      var r := LoadEntries(env, img.version, img.addresses);
      SlotsBound(img.newBuckets);
      SlotsBound(img.triedBuckets);
      LoadedBare(env, img.version, img.addresses);
      if r.ok {
        PlaceAllCounter(Indexed(r.index), Slots(img.newBuckets));
        var placed := PlaceAll(Indexed(r.index), Slots(img.newBuckets));
        MarkAllCounter(placed.tables, Slots(img.triedBuckets));
      }
    }
  }

  lemma {:induction false} PlacedAreKnown(t: Tables, slots: seq<Slot>)
    requires Within(slots, |t.buckets|)
    ensures PlaceAll(t, slots).ok ==> forall s :: s in slots ==> s.key in t.index
  {
    if slots == [] {
    } else {
      PlacedAreKnown(t, slots[..|slots| - 1]);
      assert slots == slots[..|slots| - 1] + [slots[|slots| - 1]];
    }
  }

  lemma {:induction false} FirstSlot(lists: seq<seq<string>>)
    requires lists != [] && lists[0] != []
    ensures Slots(lists) != [] && Slots(lists)[0] == Slot(0, lists[0][0])
  {
    if |lists| > 1 { FirstSlot(lists[..|lists| - 1]); }
  }

  /** A file that lists the key it has an address for and then one it has not. */
  function DanglingImage(hs: Hasher): (img: Image)
    ensures Shaped(img)
  {
    Image(2, hs, [SavedAddr("a", "a", 0, 0, 0, 0, {}, {})],
          seq(NEW_BUCKET_COUNT, b => if b == 0 then ["a", "b"] else []), seq(TRIED_BUCKET_COUNT, _ => []))
  }

  /** Loading that file fails and leaves no address, but a count above zero: GetAddress then enters a
      loop that no draw ends. */
  lemma FailedLoadExample(hs: Hasher, coin: bool, d: Draw)
    ensures
      var env := Env(a => Some(a), _ => 0);
      var r, t := Load(env, DanglingImage(hs)), LoadPeers(env, DanglingImage(hs));
      !r.ok && t.index == map[] && t.nNew + t.nTried > 0 && !Hits(t, coin, d)
  {
    var env, img := Env(a => Some(a), _ => 0), DanglingImage(hs);
    var index := LoadEntries(env, 2, img.addresses).index;
    assert img.addresses[..0] == [];
    assert index.Keys == {"a"};
    SlotsBound(img.newBuckets);
    FirstSlot(img.newBuckets);
    SlotsMembers(img.newBuckets, Slot(0, "b"));
    assert img.newBuckets[0][1] == "b";
    PlacedAreKnown(Indexed(index), Slots(img.newBuckets));
    assert !Load(env, img).ok;
    LoadedBare(env, 2, img.addresses);
    PlaceAllCounter(Indexed(index), Slots(img.newBuckets));
  }
}
