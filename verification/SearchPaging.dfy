/**
 Paging through the transactions of an address.  The address index keeps its entries in levels, newest in
 level zero, and a search from the newest end loads only the levels it needs; unconfirmed transactions
 come from the memory pool.  The answer is one page of the whole list, as long as 32-bit sums do not
 wrap around.
 */
module SearchPaging {
  import opened Common

  const U32: nat := 0x1_0000_0000
  const TX_ENTRY_SIZE: nat := 12
  const DEFAULT_COUNT: int := 100

  /** A transaction of the address. */
  type Txn = int

  function Min(a: nat, b: nat): nat {
    if a <= b then a else b
  }

  /** The low 32 bits of a number. */
  function Low32(x: nat): (y: nat)
    ensures y < U32 && y <= x && (x < U32 ==> y == x)
  {
    if x < U32 then x else Low32(x - U32)
  }

  /** The sum of two 32-bit numbers. */
  function Add32(a: nat, b: nat): (c: nat)
    requires a < U32 && b < U32
    ensures c < U32 && (a + b < U32 <==> c == a + b) && (a + b >= U32 ==> c < a && c == a + b - U32)
  {
    if a + b < U32 then a + b else a + b - U32
  }

  /** `count` entries after the first `skip`, or as many as there are. */
  function Page(s: seq<Txn>, skip: nat, count: nat): seq<Txn> {
    Take(Drop(s, skip), count)
  }

  function Drop(s: seq<Txn>, n: nat): seq<Txn> {
    s[Min(n, |s|)..]
  }

  function Take(s: seq<Txn>, n: nat): seq<Txn> {
    s[..Min(n, |s|)]
  }

  function Reverse(s: seq<Txn>): (r: seq<Txn>)
    ensures |r| == |s| && forall i :: 0 <= i < |s| ==> r[i] == s[|s| - 1 - i]
  {
    seq(|s|, i requires 0 <= i < |s| => s[|s| - 1 - i])
  }

  /** All entries of the index, oldest first. */
  function Whole(levels: seq<seq<Txn>>): seq<Txn> {
    if levels == [] then [] else Whole(levels[1..]) + levels[0]
  }

  lemma {:induction false} WholeOfParts(levels: seq<seq<Txn>>, k: nat)
    requires k <= |levels|
    ensures Whole(levels) == Whole(levels[k..]) + Whole(levels[..k])
    decreases k
  {
    if k == 0 {
      assert levels[k..] == levels && levels[..k] == [];
    } else {
      WholeOfParts(levels[1..], k - 1);
      assert levels[1..][k - 1..] == levels[k..] && levels[1..][..k - 1] == levels[..k][1..];
    }
  }

  lemma {:induction false} OneMoreLevel(levels: seq<seq<Txn>>, k: nat)
    requires k < |levels|
    ensures Whole(levels[..k + 1]) == levels[k] + Whole(levels[..k])
  {
    var first := levels[..k + 1];
    WholeOfParts(first, k);
    assert first[..k] == levels[..k] && first[k..] == [levels[k]];
    assert Whole([levels[k]]) == levels[k] by {
      assert [levels[k]][1..] == [];
    }
  }

  // ---------- dbFetchAddrIndexEntries ----------

  /** How many levels it takes, from level `k` on, to have enough entries. */
  function Reading(levels: seq<seq<Txn>>, enough: nat, k: nat): (n: nat)
    requires k <= |levels|
    ensures k <= n <= |levels|
    decreases |levels| - k
  {
    if k == |levels| || |Whole(levels[..k])| >= enough then k else Reading(levels, enough, k + 1)
  }

  /** The entries that are loaded. */
  function Loaded(levels: seq<seq<Txn>>, reverse: bool, enough: nat): seq<Txn> {
    if reverse then Whole(levels[..Reading(levels, enough, 0)]) else Whole(levels)
  }

  /** The levels needed: all of them from the oldest end, otherwise until there are enough entries. */
  method LoadLevels(levels: seq<seq<Txn>>, reverse: bool, enough: nat) returns (loaded: seq<Txn>)
    ensures loaded == Loaded(levels, reverse, enough)
  {
    loaded := [];
    var level := 0;
    while !reverse || |loaded| < enough
      invariant level <= |levels| && loaded == Whole(levels[..level])
      invariant reverse ==> Reading(levels, enough, 0) == Reading(levels, enough, level)
      decreases |levels| - level
    {
      if level == |levels| {
        break;
      }
      OneMoreLevel(levels, level);
      loaded := levels[level] + loaded;
      level := level + 1;
    }
    assert level == |levels| ==> levels[..level] == levels;
  }

  lemma {:induction false} ReadingIsEnough(levels: seq<seq<Txn>>, enough: nat, k: nat)
    requires k <= |levels|
    ensures var n := Reading(levels, enough, k); n == |levels| || |Whole(levels[..n])| >= enough
    decreases |levels| - k
  {
    if k < |levels| && |Whole(levels[..k])| < enough {
      ReadingIsEnough(levels, enough, k + 1);
    }
  }

  /** The entries a search goes through in its own order. */
  function InOrder(s: seq<Txn>, reverse: bool): seq<Txn> {
    if reverse then Reverse(s) else s
  }

  /** The newest entries of the whole index are those of the levels loaded. */
  lemma NewestFirst(levels: seq<seq<Txn>>, k: nat, skip: nat, count: nat)
    requires k <= |levels| && (k == |levels| || |Whole(levels[..k])| >= skip + count)
    ensures Page(Reverse(Whole(levels[..k])), skip, count) == Page(Reverse(Whole(levels)), skip, count)
    ensures |Whole(levels[..k])| <= |Whole(levels)| && (k == |levels| ==> Whole(levels[..k]) == Whole(levels))
  {
    WholeOfParts(levels, k);
    if k == |levels| {
      assert levels[..k] == levels;
    } else {
      var part, all := Reverse(Whole(levels[..k])), Reverse(Whole(levels));
      assert all[..|part|] == part;
      assert Page(part, skip, count) == Page(all, skip, count);
    }
  }

  /** Entries read one by one, from either end. */
  method ReadEntries(serialized: seq<Txn>, numToSkip: nat, numToLoad: nat, reverse: bool) returns (results: seq<Txn>)
    requires numToSkip + numToLoad <= |serialized|
    ensures results == Page(InOrder(serialized, reverse), numToSkip, numToLoad)
  {
    results := [];
    ghost var order := InOrder(serialized, reverse);
    for i := 0 to numToLoad
      invariant |results| == i && forall j :: 0 <= j < i ==> results[j] == order[numToSkip + j]
    {
      var offset := if reverse then |serialized| - numToSkip - i - 1 else numToSkip + i;
      results := results + [serialized[offset]];
    }
  }

  /** A page is the part of the list between its two ends, as far as there is one. */
  lemma PageIs(s: seq<Txn>, skip: nat, count: nat)
    ensures |Page(s, skip, count)| ==
      if skip >= |s| then 0 else if skip + count <= |s| then count else |s| - skip
    ensures forall i :: 0 <= i < |Page(s, skip, count)| ==> Page(s, skip, count)[i] == s[skip + i]
  {
  }

  lemma PageEnds(s: seq<Txn>, skip: nat, count: nat)
    requires skip <= |s|
    ensures Page(s, skip, Min(|s| - skip, count)) == Page(s, skip, count)
  {
  }

  /** The page of the entries loaded. */
  method PageOfLoaded(serialized: seq<Txn>, numToSkip: nat, numRequested: nat, reverse: bool)
    returns (results: seq<Txn>, skipped: nat)
    ensures results == Page(InOrder(serialized, reverse), numToSkip, numRequested)
    ensures skipped == Min(numToSkip, |serialized|)
  {
    var numEntries := |serialized|;
    if numToSkip >= numEntries {
      return [], numEntries;
    }
    if numRequested == 0 {
      return [], numToSkip;
    }
    var numToLoad := Min(numEntries - numToSkip, numRequested);
    PageEnds(InOrder(serialized, reverse), numToSkip, numRequested);
    results := ReadEntries(serialized, numToSkip, numToLoad, reverse);
    skipped := numToSkip;
  }

  /** When the sum does not wrap around, the levels loaded are enough for the page. */
  lemma LoadedIsEnough(levels: seq<seq<Txn>>, skip: nat, count: nat, reverse: bool)
    requires !reverse || skip + count < U32
    ensures var part := Loaded(levels, reverse, skip + count);
      && Page(InOrder(part, reverse), skip, count) == Page(InOrder(Whole(levels), reverse), skip, count)
      && Min(skip, |part|) == Min(skip, |Whole(levels)|)
  {
    if reverse {
      ReadingIsEnough(levels, skip + count, 0);
      NewestFirst(levels, Reading(levels, skip + count, 0), skip, count);
    }
  }

  /** dbFetchAddrIndexEntries: a page of the entries loaded, and how many were skipped.  It is the page of the
      whole index unless the sum of skip and count wraps around in a search from the newest end. */
  method FetchEntries(levels: seq<seq<Txn>>, numToSkip: nat, numRequested: nat, reverse: bool)
    returns (results: seq<Txn>, skipped: nat)
    requires numToSkip < U32 && numRequested < U32 && |Whole(levels)| * TX_ENTRY_SIZE < U32
    ensures var part := Loaded(levels, reverse, Add32(numToSkip, numRequested));
      results == Page(InOrder(part, reverse), numToSkip, numRequested) && skipped == Min(numToSkip, |part|)
    ensures !reverse || numToSkip + numRequested < U32 ==>
      && results == Page(InOrder(Whole(levels), reverse), numToSkip, numRequested)
      && skipped == Min(numToSkip, |Whole(levels)|)
  {
    var serialized := LoadLevels(levels, reverse, Add32(numToSkip, numRequested));
    if !reverse || numToSkip + numRequested < U32 {
      LoadedIsEnough(levels, numToSkip, numRequested, reverse);
    }
    results, skipped := PageOfLoaded(serialized, numToSkip, numRequested, reverse);
  }

  // ---------- Memory pool and search ----------

  /** fetchMempoolTxnsForAddress.  Nothing comes back when slicing would panic. */
  method FetchMempool(pool: seq<Txn>, numToSkip: nat, numRequested: nat) returns (r: Option<seq<Txn>>, skipped: nat)
    requires numToSkip < U32 && numRequested < U32 && |pool| < U32
    ensures r.None? <==> numToSkip <= |pool| && numToSkip + numRequested >= U32
    ensures r.Some? ==> r.value == Page(pool, numToSkip, numRequested) && skipped == Min(numToSkip, |pool|)
  {
    if numToSkip > |pool| {
      return Some([]), |pool|;
    }
    var rangeEnd := Add32(numToSkip, numRequested);
    if rangeEnd > |pool| {
      rangeEnd := |pool|;
    }
    if rangeEnd < numToSkip {
      return None, 0;
    }
    r, skipped := Some(pool[numToSkip..rangeEnd]), numToSkip;
  }

  lemma DropOfTwo(a: seq<Txn>, b: seq<Txn>, n: nat)
    ensures Drop(a + b, n) == Drop(a, n) + Drop(b, n - Min(n, |a|))
  {
  }

  lemma TakeOfTwo(a: seq<Txn>, b: seq<Txn>, n: nat)
    ensures Take(a + b, n) == Take(a, n) + Take(b, n - |Take(a, n)|)
  {
  }

  /** A page of two lists one after the other is a page of the first, then one of the second. */
  lemma PageOfTwo(a: seq<Txn>, b: seq<Txn>, skip: nat, count: nat)
    ensures |Page(a, skip, count)| <= count
    ensures Page(a + b, skip, count) ==
      Page(a, skip, count) + Page(b, skip - Min(skip, |a|), count - |Page(a, skip, count)|)
  {
    DropOfTwo(a, b, skip);
    TakeOfTwo(Drop(a, skip), Drop(b, skip - Min(skip, |a|)), count);
  }

  /** The number of entries asked for, and the number to skip, with their defaults. */
  function Requested(count: Option<int>): nat {
    match count
    case None => DEFAULT_COUNT
    case Some(n) => if n < 0 then 1 else n
  }

  function ToSkip(skip: Option<int>): nat {
    match skip
    case None => 0
    case Some(n) => if n < 0 then 0 else n
  }

  /** The whole list a search pages through: oldest first with the memory pool last, or the memory pool and
      then the index from its newest end. */
  function Listing(levels: seq<seq<Txn>>, pool: seq<Txn>, reverse: bool): seq<Txn> {
    if reverse then pool + Reverse(Whole(levels)) else Whole(levels) + pool
  }

  datatype Answer = Nothing | NoInformation | Txns(txns: seq<Txn>) | Panic

  /** The requests that slice the memory pool's list backwards: the skip ends within it, and the end of the
      page wraps around. */
  predicate Crashes(levels: seq<seq<Txn>>, pool: seq<Txn>, skip: nat, count: nat, reverse: bool) {
    if reverse then skip <= |pool| && skip + count >= U32
    else
      var entries := |Whole(levels)|;
      entries <= skip <= entries + |pool| && skip - entries + count >= U32
  }

  /** The requests that wrap around in the index's own sum, so that too few levels are loaded for entries
      there are. */
  predicate FallsShort(levels: seq<seq<Txn>>, pool: seq<Txn>, skip: nat, count: nat, reverse: bool)
    requires skip < U32 && count < U32
  {
    && reverse && skip > |pool| && skip - |pool| + count >= U32 && skip - |pool| < |Whole(levels)|
    && |Loaded(levels, true, Add32(skip - |pool|, count))| < |Whole(levels)|
  }

  /** A skip of one and the largest count: their sum wraps around to zero, and no level at all is loaded. */
  lemma FallsShortExample()
    ensures FallsShort([[5, 6]], [], 1, U32 - 1, true)
    ensures Loaded([[5, 6]], true, Add32(1, U32 - 1)) == [] && Page(Listing([[5, 6]], [], true), 1, U32 - 1) == [5]
  {
    var levels := [[5, 6]];
    assert Whole(levels) == [5, 6] by {
      assert levels[1..] == [] && Whole(levels[1..]) == [];
    }
    assert levels[..0] == [] && Reading(levels, 0, 0) == 0;
    assert Reverse([5, 6]) == [6, 5];
  }

  lemma LoadedIsPart(levels: seq<seq<Txn>>, enough: nat)
    ensures |Loaded(levels, true, enough)| <= |Whole(levels)|
    ensures |Loaded(levels, true, enough)| == |Whole(levels)| ==> Loaded(levels, true, enough) == Whole(levels)
  {
    WholeOfParts(levels, Reading(levels, enough, 0));
  }

  /** What a wrapped search finds in the index is the page asked for, unless it falls short. */
  lemma WrappedPage(levels: seq<seq<Txn>>, skip: nat, count: nat)
    requires skip < U32 && count < U32 && skip + count >= U32 && |Whole(levels)| * TX_ENTRY_SIZE < U32
    ensures var part := Loaded(levels, true, Add32(skip, count));
      Page(Reverse(part), skip, count) == Page(Reverse(Whole(levels)), skip, count) <==>
      !(skip < |Whole(levels)| && |part| < |Whole(levels)|)
  {
    var part := Loaded(levels, true, Add32(skip, count));
    LoadedIsPart(levels, Add32(skip, count));
    assert |Page(Reverse(part), skip, count)| == if skip < |part| then |part| - skip else 0;
    assert |Page(Reverse(Whole(levels)), skip, count)| == if skip < |Whole(levels)| then |Whole(levels)| - skip else 0;
  }

  /** The answer for a page. */
  function Found(page: seq<Txn>): Answer {
    if page == [] then NoInformation else Txns(page)
  }

  /** The page of the index that follows the one of the memory pool. */
  function NewestEntries(levels: seq<seq<Txn>>, skip: nat, count: nat): seq<Txn>
    requires skip < U32 && count < U32
  {
    Page(Reverse(Loaded(levels, true, Add32(skip, count))), skip, count)
  }

  /** The index holds entries beyond the skip, and the sum wraps around to too small a number for them. */
  predicate TooFewLoaded(levels: seq<seq<Txn>>, skip: nat, count: nat)
    requires skip < U32 && count < U32
  {
    skip + count >= U32 && skip < |Whole(levels)| && |Loaded(levels, true, Add32(skip, count))| < |Whole(levels)|
  }

  lemma NewestEntriesIff(levels: seq<seq<Txn>>, skip: nat, count: nat)
    requires skip < U32 && count < U32 && |Whole(levels)| * TX_ENTRY_SIZE < U32
    ensures NewestEntries(levels, skip, count) == Page(Reverse(Whole(levels)), skip, count) <==>
      !TooFewLoaded(levels, skip, count)
  {
    if skip + count >= U32 {
      WrappedPage(levels, skip, count);
    } else {
      LoadedIsEnough(levels, skip, count, true);
    }
  }

  lemma PageSize(s: seq<Txn>, skip: nat, count: nat)
    ensures |Page(s, skip, count)| <= count && (skip >= |s| ==> Page(s, skip, count) == [])
  {
  }

  lemma ShortOrNot(levels: seq<seq<Txn>>, pool: seq<Txn>, skip: nat, count: nat, got: nat)
    requires skip < U32 && got <= count < U32 && (skip >= |pool| ==> got == 0)
    requires !Crashes(levels, pool, skip, count, true)
    ensures TooFewLoaded(levels, skip - Min(skip, |pool|), count - got) <==> FallsShort(levels, pool, skip, count, true)
  {
  }

  lemma SameRest(a: seq<Txn>, b: seq<Txn>, c: seq<Txn>)
    ensures Found(a + b) == Found(a + c) <==> b == c
  {
    if a + b == a + c {
      assert b == (a + b)[|a|..] && c == (a + c)[|a|..];
    }
  }

  /** The index's page is the one it should be exactly when it does not fall short. */
  lemma RestIff(levels: seq<seq<Txn>>, pool: seq<Txn>, skip: nat, count: nat, got: nat)
    requires skip < U32 && got <= count < U32 && |Whole(levels)| * TX_ENTRY_SIZE < U32
    requires !Crashes(levels, pool, skip, count, true) && (skip >= |pool| ==> got == 0)
    ensures var left := skip - Min(skip, |pool|);
      NewestEntries(levels, left, count - got) == Page(Reverse(Whole(levels)), left, count - got) <==>
      !FallsShort(levels, pool, skip, count, true)
  {
    ShortOrNot(levels, pool, skip, count, got);
    NewestEntriesIff(levels, skip - Min(skip, |pool|), count - got);
  }

  /** The two pages together, unless the memory pool's crashes, are the one asked for exactly when the
      index's does not fall short. */
  lemma NewestIff(levels: seq<seq<Txn>>, pool: seq<Txn>, skip: nat, count: nat, rest: seq<Txn>)
    requires skip < U32 && count < U32 && |Whole(levels)| * TX_ENTRY_SIZE < U32
    requires !Crashes(levels, pool, skip, count, true) && |Page(pool, skip, count)| <= count
    requires rest == NewestEntries(levels, skip - Min(skip, |pool|), count - |Page(pool, skip, count)|)
    ensures Found(Page(pool, skip, count) + rest) == Found(Page(Listing(levels, pool, true), skip, count)) <==>
      !FallsShort(levels, pool, skip, count, true)
  {
    PageSize(pool, skip, count);
    RestIff(levels, pool, skip, count, |Page(pool, skip, count)|);
    PageOfTwo(pool, Reverse(Whole(levels)), skip, count);
    SameRest(Page(pool, skip, count), rest,
             Page(Reverse(Whole(levels)), skip - Min(skip, |pool|), count - |Page(pool, skip, count)|));
  }

  lemma NoneOfNone(levels: seq<seq<Txn>>, skip: nat)
    requires skip < U32
    ensures NewestEntries(levels, skip, 0) == []
  {
  }

  /** Entries of the index are added if more are needed. */
  method MoreEntries(levels: seq<seq<Txn>>, skip: nat, count: nat) returns (more: seq<Txn>)
    requires |Whole(levels)| * TX_ENTRY_SIZE < U32 && skip < U32
    ensures more == NewestEntries(levels, skip, Low32(count))
  {
    if 0 < count {
      var regions, _ := FetchEntries(levels, skip, Low32(count), true);
      more := regions;
    } else {
      NoneOfNone(levels, skip);
      more := [];
    }
  }

  /** A search from the newest end. */
  method SearchNewest(levels: seq<seq<Txn>>, pool: seq<Txn>, skip: nat, count: nat) returns (r: Answer)
    requires |Whole(levels)| * TX_ENTRY_SIZE < U32 && |pool| < U32 && skip < U32 && count > 0
    ensures !r.Nothing?
    ensures count < U32 ==> (r.Panic? <==> Crashes(levels, pool, skip, count, true))
    ensures count < U32 && !r.Panic? ==>
      (r == Found(Page(Listing(levels, pool, true), skip, count)) <==> !FallsShort(levels, pool, skip, count, true))
  {
    var pooled, numSkipped := FetchMempool(pool, skip, Low32(count));
    if pooled.None? {
      return Panic;
    }
    var txns := pooled.value;
    PageSize(pool, skip, Low32(count));
    assert |txns| <= count;
    var more := MoreEntries(levels, skip - numSkipped, count - |txns|);
    if count < U32 {
      NewestIff(levels, pool, skip, count, more);
    }
    r := Found(txns + more);
  }

  /** A search from the oldest end. */
  method SearchOldest(levels: seq<seq<Txn>>, pool: seq<Txn>, skip: nat, count: nat) returns (r: Answer)
    requires |Whole(levels)| * TX_ENTRY_SIZE < U32 && |pool| < U32 && skip < U32 && count > 0
    ensures !r.Nothing?
    ensures count < U32 ==> (r.Panic? <==> Crashes(levels, pool, skip, count, false))
    ensures count < U32 && !r.Panic? ==> r == Found(Page(Listing(levels, pool, false), skip, count))
  {
    var txns, numSkipped := FetchEntries(levels, skip, Low32(count), false);
    PageOfTwo(Whole(levels), pool, skip, count);
    if |txns| < count {
      var pooled, _ := FetchMempool(pool, skip - numSkipped, Low32(count - |txns|));
      if pooled.None? {
        return Panic;
      }
      txns := txns + pooled.value;
    } else {
      assert Page(pool, skip - numSkipped, 0) == [];
    }
    r := Found(txns);
  }

  /** handleSearchRawTransactions, as far as the paging goes.  Room for all the results asked for is allocated
      first, and more than there is memory for is a panic.  Skip and count are turned into 32-bit numbers, so
      a larger skip is only seen modulo two to the power of 32. */
  method Search(levels: seq<seq<Txn>>, pool: seq<Txn>, count: Option<int>, skip: Option<int>, reverse: bool, room: nat)
    returns (r: Answer)
    requires |Whole(levels)| * TX_ENTRY_SIZE < U32 && |pool| < U32
    ensures r.Nothing? <==> Requested(count) == 0
    ensures Requested(count) > room ==> r.Panic?
    ensures 0 < Requested(count) < U32 && Requested(count) <= room ==>
      var n, k := Requested(count), Low32(ToSkip(skip));
      && (r.Panic? <==> Crashes(levels, pool, k, n, reverse))
      && (r == Found(Page(Listing(levels, pool, reverse), k, n)) <==>
          !Crashes(levels, pool, k, n, reverse) && !FallsShort(levels, pool, k, n, reverse))
      && (k + n < U32 ==> r == Found(Page(Listing(levels, pool, reverse), k, n)))
  {
    if Requested(count) == 0 {
      return Nothing;
    }
    if Requested(count) > room {
      return Panic;
    }
    if reverse {
      r := SearchNewest(levels, pool, Low32(ToSkip(skip)), Requested(count));
    } else {
      r := SearchOldest(levels, pool, Low32(ToSkip(skip)), Requested(count));
    }
  }

  /** One transaction in the memory pool, a skip of one and the largest count: the end of the page wraps around
      to zero, before its beginning, from either end. */
  method CrashesExample(reverse: bool, room: nat) returns (r: Answer)
    requires room >= U32
    ensures Crashes([], [5], 1, U32 - 1, reverse) && r.Panic?
    ensures Page(Listing([], [5], reverse), 1, U32 - 1) == []
  {
    r := Search([], [5], Some(U32 - 1), Some(1), reverse, room);
  }

  /** As long as the listing stays the same, pages of it that follow each other without a gap join up: nothing
      is lost or repeated. */
  lemma PagesJoin(s: seq<Txn>, skip: nat, count: nat, more: nat)
    ensures Page(s, skip, count) + Page(s, skip + count, more) == Page(s, skip, count + more)
  {
    var rest := Drop(s, skip);
    assert Drop(s, skip + count) == Drop(rest, count);
    assert rest == Take(rest, count) + Drop(rest, count);
    TakeOfTwo(Take(rest, count), Drop(rest, count), count + more);
  }
}
