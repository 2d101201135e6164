/**
 The cache behind the cfcheckpt message (BIP 157): filter headers by block hash at every interval of the
 chain that was last asked for, shared by all requests whatever chain they ask about.
 */
module CfCheckpt {
  import opened Common

  type Hash = nat

  type Header = nat

  /** The hash of a zeroed cache entry, which no block has. */
  const ZERO: Hash := 0

  /** What never changes: the interval block before each interval block, and each block's filter header. */
  datatype World = World(prev: Hash -> Hash, header: Hash -> Header)

  datatype KV = KV(blockHash: Hash, filterHeader: Header)

  const BLANK: KV := KV(ZERO, 0)

  predicate Follows(w: World, hs: seq<Hash>, i: int)
    requires 0 < i < |hs|
  {
    w.prev(hs[i]) == hs[i - 1]
  }

  /** The interval blocks of one chain, from its start. */
  ghost predicate Linked(w: World, hs: seq<Hash>) {
    && (forall i :: 0 <= i < |hs| ==> hs[i] != ZERO)
    && (forall i :: 0 < i < |hs| ==> Follows(w, hs, i))
  }

  function HashesOf(cache: seq<KV>): (r: seq<Hash>)
    ensures |r| == |cache| && forall i :: 0 <= i < |r| ==> r[i] == cache[i].blockHash
  {
    seq(|cache|, i requires 0 <= i < |cache| => cache[i].blockHash)
  }

  function HeadersOf(w: World, hs: seq<Hash>): (r: seq<Header>)
    ensures |r| == |hs| && forall i :: 0 <= i < |r| ==> r[i] == w.header(hs[i])
  {
    seq(|hs|, i requires 0 <= i < |hs| => w.header(hs[i]))
  }

  function Entries(w: World, hs: seq<Hash>): (r: seq<KV>)
    ensures |r| == |hs| && forall i :: 0 <= i < |r| ==> r[i] == KV(hs[i], w.header(hs[i]))
  {
    seq(|hs|, i requires 0 <= i < |hs| => KV(hs[i], w.header(hs[i])))
  }

  /** The cache holds one chain, with the right header for each of its blocks. */
  ghost predicate Inv(w: World, cache: seq<KV>) {
    Linked(w, HashesOf(cache)) && cache == Entries(w, HashesOf(cache))
  }

  /** One past the last index below `n` where the cache agrees with the list. */
  function Fork(cache: seq<KV>, hs: seq<Hash>, n: nat): (f: nat)
    requires n <= |cache| && n <= |hs|
    ensures f <= n && (f > 0 ==> cache[f - 1].blockHash == hs[f - 1])
    ensures forall i :: f <= i < n ==> cache[i].blockHash != hs[i]
  {
    if n == 0 || cache[n - 1].blockHash == hs[n - 1] then n else Fork(cache, hs, n - 1)
  }

  /** A request: the interval hashes of its chain, those among them whose header is on file, whether the
      lookup as a whole fails, and the capacity of the array behind the cache. */
  datatype Request = Request(hashes: seq<Hash>, known: set<Hash>, dbError: bool, capacity: nat)

  /** The first index from `i` on whose header is not on file. */
  function Missing(hs: seq<Hash>, known: set<Hash>, i: nat): (m: nat)
    requires i <= |hs|
    ensures i <= m <= |hs| && (forall j :: i <= j < m ==> hs[j] in known) && (m < |hs| ==> hs[m] !in known)
    decreases |hs| - i
  {
    if i == |hs| || hs[i] !in known then i else Missing(hs, known, i + 1)
  }

  /** Where the cached prefix ends that serves a request. */
  function ForkOf(cache: seq<KV>, r: Request): nat {
    Fork(cache, r.hashes, if |r.hashes| < |cache| then |r.hashes| else |cache|)
  }

  predicate Completes(cache: seq<KV>, r: Request) {
    !r.dbError && Missing(r.hashes, r.known, ForkOf(cache, r)) == |r.hashes|
  }

  predicate Grows(cache: seq<KV>, r: Request) {
    |r.hashes| > |cache|
  }

  /** The cache with the new chain's entries written from the fork up to index `m`, in the array it had. */
  function Overwritten(w: World, cache: seq<KV>, hs: seq<Hash>, f: nat, m: nat): (c: seq<KV>)
    requires f <= m <= |hs|
    ensures |c| == |cache|
    ensures forall i :: 0 <= i < |c| ==> c[i] == if f <= i < m then KV(hs[i], w.header(hs[i])) else cache[i]
  {
    seq(|cache|, i requires 0 <= i < |cache| => if f <= i < m then KV(hs[i], w.header(hs[i])) else cache[i])
  }

  /** The stored cache after a request.  One that stops half way writes through to the stored cache when
      the grown one still fits the array behind it. */
  function After(w: World, cache: seq<KV>, r: Request): (c: seq<KV>) {
    if !Grows(cache, r) || r.dbError then cache
    else
      var f := ForkOf(cache, r);
      var m := Missing(r.hashes, r.known, f);
      if m == |r.hashes| then cache[..f] + Entries(w, r.hashes[f..])
      else if |r.hashes| <= r.capacity then Overwritten(w, cache, r.hashes, f, m)
      else cache
  }

  /** The reply to a request that completes. */
  function Reply(w: World, cache: seq<KV>, r: Request): seq<Header> {
    var f := ForkOf(cache, r);
    seq(f, i requires 0 <= i < f => cache[i].filterHeader) + HeadersOf(w, r.hashes[f..])
  }

  // ---------- Every completed request is answered with fresh headers ----------

  lemma {:induction false} AgreeBelow(w: World, a: seq<Hash>, b: seq<Hash>, k: nat, i: nat)
    requires Linked(w, a) && Linked(w, b) && i <= k < |a| && k < |b| && a[k] == b[k]
    ensures a[i] == b[i]
  {
    if i < k {
      assert Follows(w, a, k) && Follows(w, b, k);
      AgreeBelow(w, a, b, k - 1, i);
    }
  }

  lemma PrefixAgrees(w: World, cache: seq<KV>, r: Request)
    requires Inv(w, cache) && Linked(w, r.hashes)
    ensures forall i :: 0 <= i < ForkOf(cache, r) ==> cache[i] == KV(r.hashes[i], w.header(r.hashes[i]))
  {
    var f := ForkOf(cache, r);
    forall i | 0 <= i < f ensures cache[i].blockHash == r.hashes[i] {
      AgreeBelow(w, HashesOf(cache), r.hashes, f - 1, i);
    }
  }

  lemma JoinHeaders(w: World, cache: seq<KV>, hs: seq<Hash>, f: nat)
    requires f <= |cache| && f <= |hs| && forall i :: 0 <= i < f ==> cache[i] == KV(hs[i], w.header(hs[i]))
    ensures seq(f, i requires 0 <= i < f => cache[i].filterHeader) + HeadersOf(w, hs[f..]) == HeadersOf(w, hs)
  {
  }

  lemma JoinEntries(w: World, cache: seq<KV>, hs: seq<Hash>, f: nat)
    requires f <= |cache| && f <= |hs| && forall i :: 0 <= i < f ==> cache[i] == KV(hs[i], w.header(hs[i]))
    ensures cache[..f] + Entries(w, hs[f..]) == Entries(w, hs)
  {
  }

  lemma EntriesInv(w: World, hs: seq<Hash>)
    requires Linked(w, hs)
    ensures Inv(w, Entries(w, hs))
  {
    assert HashesOf(Entries(w, hs)) == hs;
  }

  /** The reply is what fresh lookups of every interval block would give. */
  lemma ReplyIsFresh(w: World, cache: seq<KV>, r: Request)
    requires Inv(w, cache) && Linked(w, r.hashes)
    ensures Reply(w, cache, r) == HeadersOf(w, r.hashes)
  {
    PrefixAgrees(w, cache, r);
    JoinHeaders(w, cache, r.hashes, ForkOf(cache, r));
  }

  /** After a completed request that grew it, the cache is exactly that request's chain. */
  lemma GrownCache(w: World, cache: seq<KV>, r: Request)
    requires Inv(w, cache) && Linked(w, r.hashes) && Grows(cache, r) && Completes(cache, r)
    ensures After(w, cache, r) == Entries(w, r.hashes) && Inv(w, After(w, cache, r))
  {
    PrefixAgrees(w, cache, r);
    JoinEntries(w, cache, r.hashes, ForkOf(cache, r));
    EntriesInv(w, r.hashes);
  }

  /** The header of each of the first `n` blocks of a request is on file or cached at its place. */
  predicate Have(cache: seq<KV>, r: Request, n: nat) {
    forall i :: 0 <= i < n && i < |r.hashes| ==>
      r.hashes[i] in r.known || (i < |cache| && cache[i].blockHash == r.hashes[i])
  }

  lemma HaveIff(w: World, cache: seq<KV>, r: Request, n: nat)
    requires Inv(w, cache) && Linked(w, r.hashes) && n <= |r.hashes|
    ensures Have(cache, r, n) <==> n <= Missing(r.hashes, r.known, ForkOf(cache, r))
  {
    PrefixAgrees(w, cache, r);
  }

  /** A request is answered exactly when the lookup does not fail and every header is on file or cached. */
  lemma CompletesIff(w: World, cache: seq<KV>, r: Request)
    requires Inv(w, cache) && Linked(w, r.hashes)
    ensures Completes(cache, r) <==> !r.dbError && Have(cache, r, |r.hashes|)
  {
    HaveIff(w, cache, r, |r.hashes|);
  }

  /** The stored cache after a request.  It is that of the request's chain if the request is longer and is
      answered.  If a longer one is not answered, and fits the array behind the cache, the first entries are
      the new chain's, as far as there are headers for it without a gap.  Otherwise nothing changes. */
  lemma CacheAfter(w: World, cache: seq<KV>, r: Request)
    requires Inv(w, cache) && Linked(w, r.hashes)
    ensures
      var c, all := After(w, cache, r), Have(cache, r, |r.hashes|);
      if |r.hashes| <= |cache| || r.dbError then c == cache
      else if all then |c| == |r.hashes| && forall i :: 0 <= i < |c| ==> c[i] == KV(r.hashes[i], w.header(r.hashes[i]))
      else if |r.hashes| > r.capacity then c == cache
      else
        && |c| == |cache|
        && forall i :: 0 <= i < |c| ==>
            c[i] == if Have(cache, r, i + 1) then KV(r.hashes[i], w.header(r.hashes[i])) else cache[i]
  {
    CompletesIff(w, cache, r);
    if |r.hashes| > |cache| && !r.dbError {
      if Have(cache, r, |r.hashes|) {
        GrownCache(w, cache, r);
      } else if |r.hashes| <= r.capacity {
        forall i | 0 <= i < |cache|
          ensures |After(w, cache, r)| == |cache| && After(w, cache, r)[i] ==
            if Have(cache, r, i + 1) then KV(r.hashes[i], w.header(r.hashes[i])) else cache[i]
        {
          WrittenThrough(w, cache, r, i);
        }
      }
    }
  }

  lemma WrittenThrough(w: World, cache: seq<KV>, r: Request, i: nat)
    requires Inv(w, cache) && Linked(w, r.hashes) && i < |cache| < |r.hashes| <= r.capacity
    requires !r.dbError && !Completes(cache, r)
    ensures |After(w, cache, r)| == |cache|
    ensures After(w, cache, r)[i] ==
      if Have(cache, r, i + 1) then KV(r.hashes[i], w.header(r.hashes[i])) else cache[i]
  {
    var f := ForkOf(cache, r);
    var m := Missing(r.hashes, r.known, f);
    assert After(w, cache, r) == Overwritten(w, cache, r.hashes, f, m);
    HaveIff(w, cache, r, i + 1);
    PrefixAgrees(w, cache, r);
  }

  /** A request leaves its mark on the stored cache only part of the way. */
  predicate Spoils(cache: seq<KV>, r: Request) {
    && Grows(cache, r) && !r.dbError && |r.hashes| <= r.capacity
    && ForkOf(cache, r) < Missing(r.hashes, r.known, ForkOf(cache, r)) < |cache|
  }

  lemma OverwrittenWhole(w: World, cache: seq<KV>, r: Request)
    requires Inv(w, cache) && Linked(w, r.hashes) && Grows(cache, r)
    requires Missing(r.hashes, r.known, ForkOf(cache, r)) >= |cache|
    ensures Inv(w, Overwritten(w, cache, r.hashes, ForkOf(cache, r), Missing(r.hashes, r.known, ForkOf(cache, r))))
  {
    PrefixAgrees(w, cache, r);
    LinkedPrefix(w, r.hashes, |cache|);
    EntriesInv(w, r.hashes[..|cache|]);
    var f := ForkOf(cache, r);
    assert Overwritten(w, cache, r.hashes, f, Missing(r.hashes, r.known, f)) == Entries(w, r.hashes[..|cache|]);
  }

  lemma LinkedPrefix(w: World, hs: seq<Hash>, n: nat)
    requires Linked(w, hs) && n <= |hs|
    ensures Linked(w, hs[..n])
  {
    forall i | 0 < i < n ensures Follows(w, hs[..n], i) {
      assert Follows(w, hs, i);
    }
  }

  lemma SpoiltIsBroken(w: World, cache: seq<KV>, r: Request)
    requires Inv(w, cache) && Spoils(cache, r)
    ensures !Inv(w, After(w, cache, r))
  {
    var m := Missing(r.hashes, r.known, ForkOf(cache, r));
    var hs := HashesOf(After(w, cache, r));
    assert HashesOf(cache)[m] == hs[m] && HashesOf(cache)[m - 1] != hs[m - 1];
    assert Follows(w, HashesOf(cache), m) && !Follows(w, hs, m);
  }

  /** The cache stays right after a request exactly when the request does not stop part of the way
      through entries it is overwriting in place. */
  lemma AfterInvIff(w: World, cache: seq<KV>, r: Request)
    requires Inv(w, cache) && Linked(w, r.hashes)
    ensures Inv(w, After(w, cache, r)) <==> !Spoils(cache, r)
  {
    var f := ForkOf(cache, r);
    var m := Missing(r.hashes, r.known, f);
    if Spoils(cache, r) {
      SpoiltIsBroken(w, cache, r);
    } else if Grows(cache, r) && !r.dbError {
      if m == |r.hashes| {
        GrownCache(w, cache, r);
      } else if |r.hashes| > r.capacity {
        assert After(w, cache, r) == cache;
      } else if m == f {
        assert Overwritten(w, cache, r.hashes, f, m) == cache;
      } else {
        OverwrittenWhole(w, cache, r);
      }
    }
  }

  /** What a spoilt cache goes on to do: a request for the chain that was cached before is answered, at
      the fork, with the header of the other chain's block. */
  lemma SpoiltReply(w: World, cache: seq<KV>, r: Request, again: Request)
    requires Inv(w, cache) && Linked(w, r.hashes) && Spoils(cache, r)
    requires again.hashes == HashesOf(cache)
    ensures
      var f := ForkOf(cache, r);
      && |Reply(w, After(w, cache, r), again)| == |cache| && f < |cache|
      && r.hashes[f] != again.hashes[f] && Reply(w, After(w, cache, r), again)[f] == w.header(r.hashes[f])
  {
    var c := After(w, cache, r);
    assert c[|c| - 1].blockHash == again.hashes[|c| - 1];
    assert ForkOf(c, again) == |c|;
  }

  // ---------- Whole runs ----------

  /** `caches` are the successive caches of a server answering `reqs`, with any reorganisations between. */
  ghost predicate IsRun(w: World, caches: seq<seq<KV>>, reqs: seq<Request>) {
    && |caches| == |reqs| + 1 && caches[0] == []
    && forall i :: 0 <= i < |reqs| ==> caches[i + 1] == After(w, caches[i], reqs[i]) && Linked(w, reqs[i].hashes)
  }

  /** However the chains asked for fork and come back, as long as no request spoils the cache every
      completed one is answered with fresh headers, and the cache always holds one chain. */
  lemma {:induction false} RunIsFresh(w: World, caches: seq<seq<KV>>, reqs: seq<Request>, i: nat)
    requires IsRun(w, caches, reqs) && i < |caches|
    requires forall j :: 0 <= j < i ==> !Spoils(caches[j], reqs[j])
    ensures Inv(w, caches[i])
    ensures i < |reqs| ==> Reply(w, caches[i], reqs[i]) == HeadersOf(w, reqs[i].hashes)
  {
    if i == 0 {
      assert HashesOf(caches[0]) == [];
    } else {
      RunIsFresh(w, caches, reqs, i - 1);
      AfterInvIff(w, caches[i - 1], reqs[i - 1]);
    }
    if i < |reqs| { ReplyIsFresh(w, caches[i], reqs[i]); }
  }

  // A run that spoils the cache.

  /** Two chains of interval blocks, 1, 2, 3 and 11, 12, 13, 14, each block with a header of its own. */
  const TWO_CHAINS := World((h: Hash) => if h > 0 then h - 1 else 0, (h: Hash) => h + 100)

  /** The first chain in two requests, the second of which leaves room for one more in the array behind the
      cache; the other chain, of which one block is on file; and the first chain again. */
  function SpoilingRequests(): seq<Request> {
    [Request([1, 2], {1, 2, 3}, false, 0), Request([1, 2, 3], {1, 2, 3}, false, 2),
     Request([11, 12, 13, 14], {11}, false, 4), Request([1, 2, 3], {1, 2, 3}, false, 4)]
  }

  function SpoiltCaches(): seq<seq<KV>> {
    var spoilt := [KV(11, 111), KV(2, 102), KV(3, 103)];
    [[], [KV(1, 101), KV(2, 102)], [KV(1, 101), KV(2, 102), KV(3, 103)], spoilt, spoilt]
  }

  lemma SecondRequest()
    ensures After(TWO_CHAINS, SpoiltCaches()[0], SpoilingRequests()[0]) == SpoiltCaches()[1]
    ensures After(TWO_CHAINS, SpoiltCaches()[1], SpoilingRequests()[1]) == SpoiltCaches()[2]
  {
    var w, rs, cs := TWO_CHAINS, SpoilingRequests(), SpoiltCaches();
    assert Missing([1, 2], {1, 2, 3}, 0) == 2;
    assert cs[0][..0] + Entries(w, [1, 2][0..]) == cs[1];
    assert Fork(cs[1], [1, 2, 3], 2) == 2 && Missing([1, 2, 3], {1, 2, 3}, 2) == 3;
    assert cs[1][..2] + Entries(w, [1, 2, 3][2..]) == cs[2];
  }

  lemma ThirdRequest()
    ensures Spoils(SpoiltCaches()[2], SpoilingRequests()[2])
    ensures After(TWO_CHAINS, SpoiltCaches()[2], SpoilingRequests()[2]) == SpoiltCaches()[3]
  {
    var w, r, cache := TWO_CHAINS, SpoilingRequests()[2], SpoiltCaches()[2];
    assert Fork(cache, r.hashes, 0) == 0 && Fork(cache, r.hashes, 1) == 0 && Fork(cache, r.hashes, 2) == 0;
    assert ForkOf(cache, r) == 0;
    assert Missing(r.hashes, r.known, 1) == 1;
    assert Overwritten(w, cache, r.hashes, 0, 1) == SpoiltCaches()[3];
  }

  lemma FourthRequest()
    ensures var w, r, cache := TWO_CHAINS, SpoilingRequests()[3], SpoiltCaches()[3];
      After(w, cache, r) == SpoiltCaches()[4] && Reply(w, cache, r) == [111, 102, 103]
  {
    var w, r, cache := TWO_CHAINS, SpoilingRequests()[3], SpoiltCaches()[3];
    assert ForkOf(cache, r) == 3;
    assert HeadersOf(w, r.hashes[3..]) == [];
  }

  lemma SpoilingAreLinked(i: nat)
    requires i < 4
    ensures Linked(TWO_CHAINS, SpoilingRequests()[i].hashes)
  {
  }

  /** A server that has answered for one chain and is then asked for another, whose second header is not on
      file, goes on to answer for the first chain with a header of the other's first block. */
  lemma SpoiltRun()
    ensures IsRun(TWO_CHAINS, SpoiltCaches(), SpoilingRequests())
    ensures Reply(TWO_CHAINS, SpoiltCaches()[3], SpoilingRequests()[3]) == [111, 102, 103]
    ensures HeadersOf(TWO_CHAINS, SpoilingRequests()[3].hashes) == [101, 102, 103]
  {
    var w, rs, cs := TWO_CHAINS, SpoilingRequests(), SpoiltCaches();
    SecondRequest();
    ThirdRequest();
    FourthRequest();
    forall i | 0 <= i < |rs| ensures cs[i + 1] == After(w, cs[i], rs[i]) && Linked(w, rs[i].hashes) {
      assert i == 0 || i == 1 || i == 2 || i == 3;
      SpoilingAreLinked(i);
    }
  }

  // ---------- The handler ----------

  /** The search over the grown buffer finds the fork of the cache itself: blank entries match no block. */
  lemma ForkOfBuffer(cache: seq<KV>, r: Request, buf: seq<KV>)
    requires |buf| == |r.hashes| && forall i :: 0 <= i < |r.hashes| ==> r.hashes[i] != ZERO
    requires forall i :: 0 <= i < |buf| ==> buf[i] == if i < |cache| then cache[i] else BLANK
    ensures Fork(buf, r.hashes, |buf|) == ForkOf(cache, r)
  {
    assert forall i :: |cache| <= i < |buf| ==> buf[i].blockHash != r.hashes[i];
  }

  /** What the buffer holds once a request that outgrows the cache has been through it. */
  lemma AfterFromBuffer(w: World, cache: seq<KV>, r: Request, buf: seq<KV>)
    requires Grows(cache, r) && |buf| == |r.hashes|
    requires
      var f := ForkOf(cache, r);
      var m := Missing(r.hashes, r.known, f);
      forall i :: 0 <= i < |buf| ==>
        buf[i] == if !r.dbError && f <= i < m then KV(r.hashes[i], w.header(r.hashes[i]))
                  else if i < |cache| then cache[i] else BLANK
    ensures Completes(cache, r) ==> After(w, cache, r) == buf
    ensures !Completes(cache, r) && |r.hashes| <= r.capacity ==> After(w, cache, r) == buf[..|cache|]
    ensures !Completes(cache, r) && |r.hashes| > r.capacity ==> After(w, cache, r) == cache
  {
    var f := ForkOf(cache, r);
    var m := Missing(r.hashes, r.known, f);
    if Completes(cache, r) {
      assert buf == cache[..f] + Entries(w, r.hashes[f..]);
    } else if |r.hashes| <= r.capacity {
      assert !r.dbError ==> buf[..|cache|] == Overwritten(w, cache, r.hashes, f, m);
      assert r.dbError ==> buf[..|cache|] == cache;
    }
  }

  class Server {
    var backing: array<KV>
    var len: nat

    ghost predicate Valid()
      reads this
    {
      len <= backing.Length
    }

    ghost function Cache(): seq<KV>
      reads this, backing
      requires Valid()
    {
      backing[..len]
    }

    constructor ()
      ensures Valid() && Cache() == [] && fresh(backing)
    {
      backing := new KV[0];
      len := 0;
    }

    /** append: grow the cache by blank entries, in its own array when that has room. */
    method Append(n: nat, room: nat) returns (buf: array<KV>)
      requires Valid() && n > len
      modifies backing
      ensures buf.Length >= n && forall i :: 0 <= i < n ==> buf[i] == if i < len then old(backing[i]) else BLANK
      ensures if n <= backing.Length then buf == backing else fresh(buf)
      ensures backing[..len] == old(backing[..len])
    {
      if n <= backing.Length {
        buf := backing;
      } else {
        buf := new KV[n + room](_ => BLANK);
        for i := 0 to len
          invariant forall j :: 0 <= j < i ==> buf[j] == backing[j]
          invariant backing[..len] == old(backing[..len])
        {
          buf[i] := backing[i];
        }
      }
      for i := len to n
        invariant forall j :: 0 <= j < len ==> buf[j] == old(backing[j]) && backing[j] == old(backing[j])
        invariant forall j :: len <= j < i ==> buf[j] == BLANK
      {
        buf[i] := BLANK;
      }
    }

    /** The backward search for the last entry that agrees. */
    static method FindFork(buf: array<KV>, hs: seq<Hash>) returns (forkIdx: nat)
      requires |hs| <= buf.Length
      ensures forkIdx == Fork(buf[..|hs|], hs, |hs|)
    {
      forkIdx := |hs|;
      while forkIdx > 0 && buf[forkIdx - 1].blockHash != hs[forkIdx - 1]
        invariant forkIdx <= |hs| && Fork(buf[..|hs|], hs, forkIdx) == Fork(buf[..|hs|], hs, |hs|)
      {
        forkIdx := forkIdx - 1;
      }
    }

    /** Write the fresh headers after the fork, up to the first one that is not on file. */
    static method Fill(w: World, buf: array<KV>, r: Request, forkIdx: nat, update: bool, cached: seq<Header>)
      returns (reply: Option<seq<Header>>)
      requires forkIdx <= |r.hashes| <= buf.Length
      modifies buf
      ensures
        var m := Missing(r.hashes, r.known, forkIdx);
        && reply == (if m == |r.hashes| then Some(cached + HeadersOf(w, r.hashes[forkIdx..])) else None)
        && forall i :: 0 <= i < buf.Length ==>
            buf[i] == if update && forkIdx <= i < m then KV(r.hashes[i], w.header(r.hashes[i])) else old(buf[i])
    {
      var msg := cached;
      ghost var m := Missing(r.hashes, r.known, forkIdx);
      for i := forkIdx to |r.hashes|
        invariant i <= m && Missing(r.hashes, r.known, i) == m
        invariant msg == cached + HeadersOf(w, r.hashes[forkIdx..i])
        invariant forall j :: 0 <= j < buf.Length ==>
          buf[j] == if update && forkIdx <= j < i then KV(r.hashes[j], w.header(r.hashes[j])) else old(buf[j])
      {
        if r.hashes[i] !in r.known {
          return None;
        }
        var filterHeader := w.header(r.hashes[i]);
        assert HeadersOf(w, r.hashes[forkIdx..i + 1]) == HeadersOf(w, r.hashes[forkIdx..i]) + [filterHeader];
        msg := msg + [filterHeader];
        if update {
          buf[i] := KV(r.hashes[i], filterHeader);
        }
      }
      assert r.hashes[forkIdx..|r.hashes|] == r.hashes[forkIdx..];
      return Some(msg);
    }

    /** The headers of the cached prefix. */
    static method CachedHeaders(buf: array<KV>, forkIdx: nat) returns (cached: seq<Header>)
      requires forkIdx <= buf.Length
      ensures |cached| == forkIdx && forall i :: 0 <= i < forkIdx ==> cached[i] == buf[i].filterHeader
    {
      cached := [];
      for i := 0 to forkIdx
        invariant |cached| == i && forall j :: 0 <= j < i ==> cached[j] == buf[j].filterHeader
      {
        cached := cached + [buf[i].filterHeader];
      }
    }

    /** Answer a request from a buffer that holds the cache and blank entries after it. */
    static method Answer(w: World, buf: array<KV>, r: Request, update: bool, ghost cache: seq<KV>)
      returns (reply: Option<seq<Header>>)
      requires |r.hashes| <= buf.Length && forall i :: 0 <= i < |r.hashes| ==> r.hashes[i] != ZERO
      requires forall i :: 0 <= i < |r.hashes| ==> buf[i] == if i < |cache| then cache[i] else BLANK
      modifies buf
      ensures reply == if Completes(cache, r) then Some(Reply(w, cache, r)) else None
      ensures
        var f := ForkOf(cache, r);
        var m := Missing(r.hashes, r.known, f);
        forall i :: 0 <= i < buf.Length ==>
          buf[i] == if update && !r.dbError && f <= i < m then KV(r.hashes[i], w.header(r.hashes[i])) else old(buf[i])
    {
      var forkIdx := FindFork(buf, r.hashes);
      ForkOfBuffer(cache, r, buf[..|r.hashes|]);
      var cached := CachedHeaders(buf, forkIdx);
      assert cached == seq(forkIdx, i requires 0 <= i < forkIdx => cache[i].filterHeader);
      if r.dbError {
        return None;
      }
      reply := Fill(w, buf, r, forkIdx, update, cached);
    }

    /** The handler when the list fits the cache: nothing is written. */
    method ServeCached(w: World, r: Request) returns (reply: Option<seq<Header>>)
      requires Valid() && |r.hashes| <= len && forall i :: 0 <= i < |r.hashes| ==> r.hashes[i] != ZERO
      modifies backing
      ensures Cache() == After(w, old(Cache()), r)
      ensures reply == if Completes(Cache(), r) then Some(Reply(w, Cache(), r)) else None
    {
      reply := Answer(w, backing, r, false, Cache());
      assert Cache() == old(Cache());
    }

    /** The buffer a longer list is worked out in: the cache itself when its array has room. */
    method WorkOut(w: World, r: Request, room: nat) returns (buf: array<KV>, reply: Option<seq<Header>>)
      requires Valid() && |r.hashes| > len && r.capacity == backing.Length
      requires forall i :: 0 <= i < |r.hashes| ==> r.hashes[i] != ZERO
      modifies backing
      ensures reply == if Completes(old(Cache()), r) then Some(Reply(w, old(Cache()), r)) else None
      ensures |r.hashes| <= buf.Length && (buf == backing || fresh(buf))
      ensures reply.Some? ==> buf[..|r.hashes|] == After(w, old(Cache()), r)
      ensures reply.None? ==> Cache() == After(w, old(Cache()), r)
    {
      ghost var cache := Cache();
      buf := Append(|r.hashes|, room);
      reply := Answer(w, buf, r, true, cache);
      ghost var all := buf[..|r.hashes|];
      AfterFromBuffer(w, cache, r, all);
      if buf == backing {
        assert all[..len] == backing[..len];
      } else {
        assert backing[..len] == cache;
      }
    }

    /** The handler when the list is longer than the cache: the cache grows to the list's length. */
    method ServeGrown(w: World, r: Request, room: nat) returns (reply: Option<seq<Header>>)
      requires Valid() && |r.hashes| > len && r.capacity == backing.Length
      requires forall i :: 0 <= i < |r.hashes| ==> r.hashes[i] != ZERO
      modifies this, backing
      ensures Valid() && Cache() == After(w, old(Cache()), r)
      ensures reply == if Completes(old(Cache()), r) then Some(Reply(w, old(Cache()), r)) else None
    {
      var buf;
      buf, reply := WorkOut(w, r, room);
      if reply.Some? {
        backing, len := buf, |r.hashes|;
      }
    }

    /** OnGetCFCheckpt, once the interval hashes are known: answer the request and keep the cache. */
    method OnGetCFCheckpt(w: World, r: Request, room: nat) returns (reply: Option<seq<Header>>)
      requires Valid() && Inv(w, Cache()) && Linked(w, r.hashes) && r.capacity == backing.Length
      modifies this, backing
      ensures Valid() && Cache() == After(w, old(Cache()), r)
      ensures reply.Some? <==> !r.dbError && Have(old(Cache()), r, |r.hashes|)
      ensures reply.Some? ==> reply.value == HeadersOf(w, r.hashes)
    {
      ReplyIsFresh(w, Cache(), r);
      CompletesIff(w, Cache(), r);
      if |r.hashes| > len {
        reply := ServeGrown(w, r, room);
      } else {
        reply := ServeCached(w, r);
      }
    }
  }
}
