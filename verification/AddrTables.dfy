/**
 The address manager's tables as values: what every operation computes, with the
 randomness, the clock and the keyed hash made explicit.  The heap model in
 `AddrManager` is proved against these functions; the properties of the tables
 are proved here and in `AddrTableProofs`.
 */
module AddrTables {

  const NEW_BUCKET_COUNT: nat := 1024
  const TRIED_BUCKET_COUNT: nat := 64
  const NEW_BUCKET_SIZE: nat := 64
  const TRIED_BUCKET_SIZE: nat := 256
  const NEW_BUCKETS_PER_ADDRESS: nat := 8
  const NEW_BUCKETS_PER_GROUP: nat := 64
  const TRIED_BUCKETS_PER_GROUP: nat := 8
  const NUM_MISSING_DAYS: nat := 30
  const NUM_RETRIES: nat := 3
  const MAX_FAILURES: nat := 10
  const MIN_BAD_DAYS: nat := 7
  const DAY: nat := 86400
  const GET_ADDR_MAX: nat := 2500
  const GET_ADDR_PERCENT: nat := 23

  /** The zero time, in seconds since 1970. */
  const ZERO_TIME: int := -62135596800

  /** A network address: its rendered host and port, when it was last seen, and its service bits. */
  datatype NetAddr = NetAddr(endpoint: string, timestamp: int, services: set<nat>)

  function NetAddressKey(na: NetAddr): string {
    na.endpoint
  }

  /** One field of the data fed to the double hash. */
  datatype Piece = Text(text: string) | Word(word: nat)

  /** What the tables take from outside: the group of an address, its routability, and the keyed
      64-bit hash. */
  datatype Hasher = Hasher(group: string -> string, routable: string -> bool, hash64: seq<Piece> -> nat)
  {
    function NewBucket(na: NetAddr, src: NetAddr): (b: nat)
      ensures b < NEW_BUCKET_COUNT
    {
      var h := hash64([Text(group(na.endpoint)), Text(group(src.endpoint))]) % NEW_BUCKETS_PER_GROUP;
      hash64([Text(group(src.endpoint)), Word(h)]) % NEW_BUCKET_COUNT
    }

    function TriedBucket(na: NetAddr): (b: nat)
      ensures b < TRIED_BUCKET_COUNT
    {
      var h := hash64([Text(NetAddressKey(na))]) % TRIED_BUCKETS_PER_GROUP;
      hash64([Text(group(na.endpoint)), Word(h)]) % TRIED_BUCKET_COUNT
    }
  }

  /** A known address: what the manager remembers, how many new buckets hold it, whether it is tried. */
  datatype Entry = Entry(
    na: NetAddr, src: NetAddr, attempts: int, lastAttempt: int, lastSuccess: int, refs: int, tried: bool)
  {
    predicate IsBad(now: int) {
      if lastAttempt > now - 60 then false
      else
        || na.timestamp > now + 600
        || na.timestamp < now - NUM_MISSING_DAYS * DAY
        || (lastSuccess == ZERO_TIME && attempts >= NUM_RETRIES)
        || (lastSuccess <= now - MIN_BAD_DAYS * DAY && attempts >= MAX_FAILURES)
    }
  }

  /** The index, the members of each new bucket, the order of each tried bucket, and the two counters. */
  datatype Tables = Tables(
    index: map<string, Entry>, buckets: seq<set<string>>, tried: seq<seq<string>>, nNew: int, nTried: int)

  function NoBuckets(): (r: seq<set<string>>)
    ensures |r| == NEW_BUCKET_COUNT && forall b :: 0 <= b < |r| ==> r[b] == {}
  {
    seq(NEW_BUCKET_COUNT, _ => {})
  }

  function NoLists(): (r: seq<seq<string>>)
    ensures |r| == TRIED_BUCKET_COUNT && forall b :: 0 <= b < |r| ==> r[b] == []
  {
    seq(TRIED_BUCKET_COUNT, _ => [])
  }

  const EMPTY: Tables := Tables(map[], NoBuckets(), NoLists(), 0, 0)

  // ---------- The table invariant ----------

  /** The new buckets that hold key `k`. */
  function Homes(buckets: seq<set<string>>, k: string): set<nat> {
    set b: nat | b < |buckets| && k in buckets[b]
  }

  function NewKeys(index: map<string, Entry>): set<string> {
    set k | k in index && !index[k].tried
  }

  function TriedKeys(index: map<string, Entry>): set<string> {
    set k | k in index && index[k].tried
  }

  predicate NoDuplicates<T(==)>(s: seq<T>) {
    forall i, j :: 0 <= i < j < |s| ==> s[i] != s[j]
  }

  /** Every index key is its entry's own key, and `refs` counts the new buckets that hold it. */
  predicate IndexInv(t: Tables) {
    && (forall k :: k in t.index ==> NetAddressKey(t.index[k].na) == k)
    && (forall k :: k in t.index ==> t.index[k].refs == |Homes(t.buckets, k)| <= NEW_BUCKETS_PER_ADDRESS)
  }

  predicate NewInv(t: Tables) {
    && |t.buckets| == NEW_BUCKET_COUNT
    && (forall b :: 0 <= b < |t.buckets| ==> t.buckets[b] <= t.index.Keys)
    && (forall b :: 0 <= b < |t.buckets| ==> |t.buckets[b]| <= NEW_BUCKET_SIZE + 1)
  }

  /** A tried entry sits once, in the list its own hash selects. */
  predicate TriedInv(hs: Hasher, t: Tables) {
    && |t.tried| == TRIED_BUCKET_COUNT
    && (forall b :: 0 <= b < |t.tried| ==> |t.tried[b]| <= TRIED_BUCKET_SIZE && NoDuplicates(t.tried[b]))
    && (forall b, k :: 0 <= b < |t.tried| && k in t.tried[b] ==>
          k in t.index && t.index[k].tried && hs.TriedBucket(t.index[k].na) == b)
    && (forall k :: k in t.index && t.index[k].tried ==> k in t.tried[hs.TriedBucket(t.index[k].na)])
  }

  /** An entry is tried exactly when no new bucket holds it, and the counters count the two classes. */
  predicate CountInv(t: Tables, pending: set<string>) {
    && (forall k :: k in t.index && k !in pending ==> (t.index[k].tried <==> t.index[k].refs == 0))
    && t.nNew == |NewKeys(t.index)|
    && t.nTried == |TriedKeys(t.index)|
  }

  /** The tables are consistent, apart from key `pending` which may be in the index but in no table. */
  predicate InvBut(hs: Hasher, t: Tables, pending: set<string>) {
    && IndexInv(t) && NewInv(t) && TriedInv(hs, t) && CountInv(t, pending)
  }

  predicate Inv(hs: Hasher, t: Tables) {
    InvBut(hs, t, {})
  }

  // ---------- Operations ----------

  /** Those of the keys `ks` with a single reference left. */
  function LastRefs(t: Tables, ks: set<string>): set<string>
    requires ks <= t.index.Keys
  {
    set k | k in ks && t.index[k].refs == 1
  }

  /** Take the keys `ks` out of new bucket `b`; an entry that loses its last reference leaves the index. */
  function DropRefs(t: Tables, b: nat, ks: set<string>): Tables
    requires b < |t.buckets| && ks <= t.buckets[b] <= t.index.Keys
  {
    var gone := LastRefs(t, ks);
    t.(index := map k | k in t.index && k !in gone ::
                  if k in ks then t.index[k].(refs := t.index[k].refs - 1) else t.index[k],
       buckets := t.buckets[b := t.buckets[b] - ks],
       nNew := t.nNew - |gone|)
  }

  function BadKeys(t: Tables, b: nat, now: int): set<string>
    requires b < |t.buckets| && t.buckets[b] <= t.index.Keys
  {
    set k | k in t.buckets[b] && t.index[k].IsBad(now)
  }

  /** `victim` is an eldest entry of bucket `b` that is not bad, or empty when all are bad. */
  predicate IsVictim(t: Tables, b: nat, now: int, victim: set<string>)
    requires b < |t.buckets| && t.buckets[b] <= t.index.Keys
  {
    var good := t.buckets[b] - BadKeys(t, b, now);
    if good == {} then victim == {}
    else
      exists v ::
        && v in good && victim == {v}
        && forall u :: u in good ==> t.index[v].na.timestamp <= t.index[u].na.timestamp
  }

  /** expireNew: every bad entry goes, and so does the eldest of the others. */
  function Expire(t: Tables, b: nat, now: int, victim: set<string>): Tables
    requires b < |t.buckets| && t.buckets[b] <= t.index.Keys
    requires IsVictim(t, b, now, victim)
  {
    DropRefs(t, b, BadKeys(t, b, now) + victim)
  }

  /** Refresh the last-seen time and services of a known address. */
  function Refreshed(e: Entry, na: NetAddr): Entry {
    if na.timestamp > e.na.timestamp || !(na.services <= e.na.services)
    then e.(na := e.na.(timestamp := na.timestamp, services := e.na.services + na.services))
    else e
  }

  /** Add `k` to new bucket `b` and count the reference. */
  function WithRef(t: Tables, b: nat, k: string): Tables
    requires b < |t.buckets| && k in t.index
  {
    t.(index := t.index[k := t.index[k].(refs := t.index[k].refs + 1)],
       buckets := t.buckets[b := t.buckets[b] + {k}])
  }

  /** The tail of updateAddress: put a key into a bucket, making room first. */
  function AddToBucket(t: Tables, b: nat, k: string, now: int, victim: set<string>): Tables
    requires b < |t.buckets| && t.buckets[b] <= t.index.Keys && k in t.index
    requires k !in t.buckets[b] && |t.buckets[b]| > NEW_BUCKET_SIZE ==> IsVictim(t, b, now, victim)
  {
    if k in t.buckets[b] then t
    else
      var roomy := if |t.buckets[b]| > NEW_BUCKET_SIZE then Expire(t, b, now, victim) else t;
      WithRef(roomy, b, k)
  }

  /** updateAddress up to the choice of bucket: the tables, and whether the address goes on to a bucket. */
  function Noted(hs: Hasher, t: Tables, na: NetAddr, src: NetAddr, draw: nat): (r: (Tables, bool))
    requires Inv(hs, t)
  {
    var k := NetAddressKey(na);
    if !hs.routable(na.endpoint) then (t, false)
    else if k in t.index then
      var e := Refreshed(t.index[k], na);
      var t' := t.(index := t.index[k := e]);
      if e.tried || e.refs == NEW_BUCKETS_PER_ADDRESS then (t', false)
      else (t', draw % (2 * e.refs) == 0)
    else
      (t.(index := t.index[k := Entry(na, src, 0, ZERO_TIME, ZERO_TIME, 0, false)], nNew := t.nNew + 1), true)
  }

  predicate UpdateLegal(hs: Hasher, t: Tables, na: NetAddr, src: NetAddr, draw: nat, now: int, victim: set<string>)
    requires Inv(hs, t)
  {
    var (t', go) := Noted(hs, t, na, src, draw);
    var b := hs.NewBucket(na, src);
    go && NetAddressKey(na) !in t'.buckets[b] && |t'.buckets[b]| > NEW_BUCKET_SIZE ==> IsVictim(t', b, now, victim)
  }

  /** updateAddress. */
  function Update(hs: Hasher, t: Tables, na: NetAddr, src: NetAddr, draw: nat, now: int, victim: set<string>): Tables
    requires Inv(hs, t) && UpdateLegal(hs, t, na, src, draw, now, victim)
  {
    var (t', go) := Noted(hs, t, na, src, draw);
    if go then AddToBucket(t', hs.NewBucket(na, src), NetAddressKey(na), now, victim) else t'
  }

  function FirstEldest(index: map<string, Entry>, l: seq<string>): (i: nat)
    requires l != [] && forall k :: k in l ==> k in index
    ensures i < |l|
  {
    if |l| == 1 then 0
    else
      var i := FirstEldest(index, l[..|l| - 1]);
      if index[l[i]].na.timestamp > index[l[|l| - 1]].na.timestamp then |l| - 1 else i
  }

  /** The first new bucket from `from` on that holds `k`, or the number of buckets when none does. */
  function FirstHome(buckets: seq<set<string>>, k: string, from: nat): (b: nat)
    requires from <= |buckets|
    ensures from <= b <= |buckets|
    ensures b < |buckets| ==> k in buckets[b]
    ensures forall c :: from <= c < b ==> k !in buckets[c]
    decreases |buckets| - from
  {
    if from == |buckets| || k in buckets[from] then from else FirstHome(buckets, k, from + 1)
  }

  /** Good: a success is recorded and the address moves to its tried bucket, swapping out the eldest
      entry there when it is full. */
  function Promote(hs: Hasher, t: Tables, na: NetAddr, now: int): Tables
    requires Inv(hs, t)
  {
    var k := NetAddressKey(na);
    if k !in t.index then t
    else
      var e := t.index[k].(lastSuccess := now, lastAttempt := now, attempts := 0);
      if e.tried then t.(index := t.index[k := e])
      else Moved(hs, t.(index := t.index[k := e]), k)
  }

  /** Take `k` out of every new bucket, dropping one reference for each. */
  function PulledOut(t: Tables, k: string): Tables
    requires k in t.index
  {
    t.(index := t.index[k := t.index[k].(refs := t.index[k].refs - |Homes(t.buckets, k)|)],
       buckets := seq(|t.buckets|, b requires 0 <= b < |t.buckets| => t.buckets[b] - {k}))
  }

  /** Append `k` to tried list `b`. */
  function Pushed(t: Tables, k: string, b: nat): Tables
    requires k in t.index && b < |t.tried|
  {
    t.(index := t.index[k := t.index[k].(tried := true)],
       tried := t.tried[b := t.tried[b] + [k]], nNew := t.nNew - 1, nTried := t.nTried + 1)
  }

  /** Put `k` in the place of entry `i` of tried list `b`, and that entry into new bucket `nb`. */
  function Swapped(t: Tables, k: string, b: nat, i: nat, nb: nat): Tables
    requires k in t.index && b < |t.tried| && i < |t.tried[b]| && t.tried[b][i] in t.index && nb < |t.buckets|
  {
    var r := t.tried[b][i];
    t.(index := t.index[k := t.index[k].(tried := true)]
                       [r := t.index[r].(tried := false, refs := t.index[r].refs + 1)],
       buckets := t.buckets[nb := t.buckets[nb] + {r}],
       tried := t.tried[b := t.tried[b][i := k]])
  }

  /** The new bucket for the entry `r` that `k` displaces: its own, or when that is full the first
      bucket `k` has left. */
  function Landing(hs: Hasher, t: Tables, k: string, r: string): (nb: nat)
    requires |t.buckets| == NEW_BUCKET_COUNT && k in t.index && r in t.index
    ensures FirstHome(t.buckets, k, 0) < NEW_BUCKET_COUNT ==> nb < NEW_BUCKET_COUNT
  {
    var first := hs.NewBucket(t.index[r].na, t.index[r].src);
    if |t.buckets[first] - {k}| >= NEW_BUCKET_SIZE then FirstHome(t.buckets, k, 0) else first
  }

  /** The part of Good that follows the recording of the success. */
  function Moved(hs: Hasher, t: Tables, k: string): Tables
    requires |t.buckets| == NEW_BUCKET_COUNT && TriedInv(hs, t) && k in t.index
  {
    var out := PulledOut(t, k);
    var b := hs.TriedBucket(t.index[k].na);
    if FirstHome(t.buckets, k, 0) == |t.buckets| then out.(nNew := t.nNew - 1)
    else if |t.tried[b]| < TRIED_BUCKET_SIZE then Pushed(out, k, b)
    else
      var i := FirstEldest(t.index, t.tried[b]);
      Swapped(out, k, b, i, Landing(hs, t, k, t.tried[b][i]))
  }

  /** Attempt, Connected and SetServices change only what is remembered of one entry. */
  function Attempted(t: Tables, na: NetAddr, now: int): Tables {
    var k := NetAddressKey(na);
    if k !in t.index then t
    else t.(index := t.index[k := t.index[k].(attempts := t.index[k].attempts + 1, lastAttempt := now)])
  }

  function ConnectedTo(t: Tables, na: NetAddr, now: int): Tables {
    var k := NetAddressKey(na);
    if k !in t.index || now <= t.index[k].na.timestamp + 1200 then t
    else t.(index := t.index[k := t.index[k].(na := t.index[k].na.(timestamp := now))])
  }

  function ServicesSet(t: Tables, na: NetAddr, services: set<nat>): Tables {
    var k := NetAddressKey(na);
    if k !in t.index then t
    else t.(index := t.index[k := t.index[k].(na := t.index[k].na.(services := services))])
  }

  // ---------- GetAddress ----------

  /** The random numbers of one turn of GetAddress's loop, and whether the turn's entry is accepted. */
  datatype Draw = Draw(bucket: nat, entry: nat, accept: bool)

  /** Whether GetAddress draws from the tried table, given its coin flip. */
  predicate UsesTried(t: Tables, coin: bool) {
    t.nTried > 0 && (t.nNew == 0 || coin)
  }

  /** A draw that ends the loop: it lands in a bucket with entries and is accepted. */
  predicate Hits(t: Tables, coin: bool, d: Draw)
    requires |t.buckets| == NEW_BUCKET_COUNT && |t.tried| == TRIED_BUCKET_COUNT
  {
    && d.accept
    && if UsesTried(t, coin) then t.tried[d.bucket % TRIED_BUCKET_COUNT] != []
       else t.buckets[d.bucket % NEW_BUCKET_COUNT] != {}
  }
}
