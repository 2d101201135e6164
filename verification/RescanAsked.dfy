/**
 The questions a rescan puts to the chain, and how it ends: which question follows which, which blocks have
 been scanned, and which answer to the last question brings about which end.
 */
module RescanAsked {
  import opened Common
  import opened Rescan
  import opened RescanChain

  /** A block goes on from the last one scanned, if any was. */
  predicate Continues(job: Job, s: Scan, h: Hash) {
    s.scanned != [] ==> job.w.parent(h) == s.scanned[|s.scanned| - 1]
  }

  /** Whether a question may follow another, given the answer to that. */
  predicate Follows(job: Job, q: Question, v: View, q': Question) {
    match q
    case AskRange(from, to) =>
      // the first block of the range; or none is left, and an open rescan looks at the tip
      if from < |v.chain| then q' == AskBlock(v.chain[from])
      else
        && job.maxBlock == MAX_INT32 && q'.AskTip?
        && from == if q'.last.None? then job.start else job.w.height(q'.last.value) + 1
    case AskTip(last) =>
      // another block is the tip: the range is asked for again
      && last.Some? && v.chain != [] && v.chain[|v.chain| - 1] != last.value
      && job.w.height(last.value) >= 0 && q' == AskRange(job.w.height(last.value) + 1,
                                                         RangeEnd(job, job.w.height(last.value) + 1))
    case AskBlock(h) =>
      && h in v.chain && job.w.height(h) >= 0
      && if v.lookup.Here? then
           // scanned: on to its child in the list, or to the next range
           && !v.quit
           && (|| (q'.AskBlock? && job.w.parent(q'.h) == h && job.w.height(q'.h) == job.w.height(h) + 1)
               || (q'.AskRange? && q'.from == job.w.height(h) + 1 && q'.to == RangeEnd(job, q'.from)))
         else
           // not on file: an open rescan recovers from that height on
           v.lookup.NotFound? && job.maxBlock == MAX_INT32 && q' == AskAgain(job.w.height(h))
    case AskAgain(from) =>
      from < |v.chain| && (q' == AskFirst(v.chain[from]) || q' == AskBlock(v.chain[from]))
    case AskFirst(h) =>
      h in v.chain && v.lookup.Here? && q' == AskBlock(h)
  }

  predicate Link(job: Job, asked: seq<Question>, k: nat)
    requires 0 < k < |asked| <= |job.views|
  {
    Follows(job, asked[k - 1], job.views[k - 1], asked[k])
  }

  /** The questions asked, each following from the one before, beginning with the first range. */
  predicate Conversation(job: Job, asked: seq<Question>) {
    && |asked| <= |job.views| && (asked != [] ==> asked[0] == AskRange(job.start, RangeEnd(job, job.start)))
    && forall k :: 0 < k < |asked| ==> Link(job, asked, k)
  }

  /** The blocks asked for and found, in order. */
  function Found(job: Job, asked: seq<Question>): seq<Hash>
    requires |asked| <= |job.views|
  {
    if asked == [] then []
    else
      var n := |asked| - 1;
      var q, v := asked[n], job.views[n];
      Found(job, asked[..n]) + if q.AskBlock? && q.h in v.chain && v.lookup.Here? then [q.h] else []
  }

  /** The last question was for the block at the next height, as a block to scan or as the first of a
      recovery's range. */
  predicate Pending(job: Job, s: Scan, q: Question) {
    (q.AskBlock? || q.AskFirst?) && job.w.height(q.h) == job.start + |s.scanned|
  }

  /** How a rescan ends, by the answer to its last question. */
  predicate EndsBy(job: Job, s: Scan)
    requires 0 < s.t == |s.asked| <= |job.views|
  {
    var q, v, next := s.asked[s.t - 1], job.views[s.t - 1], job.start + |s.scanned|;
    var open := job.maxBlock == MAX_INT32;
    // the client has quit, at a block that would have been scanned
    && (s.r.Disconnected? <==>
          Pending(job, s, q) && q.AskBlock? && q.h in v.chain && v.lookup.Here? && Continues(job, s, q.h) && v.quit)
    // a block of the best chain is on another fork, or not on file for a bounded rescan
    && (s.r.Reorganized? <==>
          && Pending(job, s, q) && q.h in v.chain
          && ((v.lookup.Here? && !Continues(job, s, q.h)) || (v.lookup.NotFound? && q.AskBlock? && !open)))
    // a block has left the best chain or cannot be read, or is not on file in a recovery
    && (s.r.DatabaseError? <==>
          && Pending(job, s, q)
          && (q.h !in v.chain || v.lookup.Failing? || (v.lookup.NotFound? && q.AskFirst?)))
    // the last block scanned is the tip, or none was scanned
    && (s.registered <==> q.AskTip? && (q.last.None? || q.last == LastOf(v.chain)))
    // a recovery finds no more blocks
    && (s.ranDry <==> q.AskAgain? && |v.chain| <= q.from)
    && (s.r.Finished? ==>
          s.registered || s.ranDry || next >= job.maxBlock || (!open && q.AskRange? && |v.chain| <= next))
    && (s.r.Running? ==> s.t == |job.views| && !s.registered && !s.ranDry)
  }

  // ---------- Every turn keeps to it ----------

  /** The question may be asked next. */
  predicate Leads(job: Job, s: Scan, q: Question)
    requires s.t == |s.asked| <= |job.views|
  {
    if s.t == 0 then q == AskRange(job.start, RangeEnd(job, job.start))
    else Follows(job, s.asked[s.t - 1], job.views[s.t - 1], q)
  }

  /** The questions so far are in order, and the blocks found have been scanned. */
  predicate InOrder(job: Job, s: Scan) {
    s.t == |s.asked| && Conversation(job, s.asked) && s.scanned == Found(job, s.asked)
  }

  /** The last answer is no end. */
  predicate Going(job: Job, s: Scan)
    requires s.t == |s.asked| <= |job.views|
  {
    s.t > 0 ==>
      var q, v := s.asked[s.t - 1], job.views[s.t - 1];
      && (Pending(job, s, q) ==>
            && q.h in v.chain
            && if q.AskBlock? then v.lookup.NotFound? && job.maxBlock == MAX_INT32
               else v.lookup.Here? && Continues(job, s, q.h))
      && (q.AskTip? ==> q.last.Some? && q.last != LastOf(v.chain))
      && (q.AskAgain? ==> |v.chain| > q.from)
  }

  /** A rescan that has ended: its last block may have been found and not scanned. */
  predicate Ended(job: Job, s: Scan) {
    && s.t == |s.asked| && Conversation(job, s.asked)
    && (s.t == 0 ==> s.r.Finished? || s.r.Running?)
    && (s.t > 0 ==> EndsBy(job, s))
    && s.scanned ==
       Found(job, if s.t > 0 && (s.r.Disconnected? || s.r.Reorganized?) then s.asked[..s.t - 1] else s.asked)
  }

  ghost predicate AskedInv(job: Job, c: Cursor) {
    match c
    case Ranging(s) =>
      InOrder(job, s) && Going(job, s) && Leads(job, s, AskRange(s.minBlock, RangeEnd(job, s.minBlock)))
    case Listing(s, hashList, i) =>
      && InOrder(job, s) && Going(job, s) && i <= |hashList|
      && if i < |hashList| then Leads(job, s, AskBlock(hashList[i]))
         else var from := s.minBlock + |hashList|; Leads(job, s, AskRange(from, RangeEnd(job, from)))
    case Done(s) => Ended(job, s)
  }

  lemma AskGoesOn(job: Job, s: Scan, q: Question)
    requires s.t == |s.asked| < |job.views| && Conversation(job, s.asked) && Leads(job, s, q)
    ensures Conversation(job, Ask(s, q).asked)
  {
    var asked := Ask(s, q).asked;
    forall k | 0 < k < |asked| ensures Link(job, asked, k) {
      if k < s.t {
        assert Link(job, s.asked, k);
      }
    }
  }

  lemma FoundGoesOn(job: Job, s: Scan, q: Question)
    requires s.t == |s.asked| < |job.views|
    ensures Ask(s, q).asked[..s.t] == s.asked
    ensures Found(job, Ask(s, q).asked) == Found(job, s.asked) +
      if q.AskBlock? && q.h in job.views[s.t].chain && job.views[s.t].lookup.Here? then [q.h] else []
  {
    assert Ask(s, q).asked[..s.t] == s.asked;
  }

  /** A question that finds no block to scan. */
  lemma AskInOrder(job: Job, s: Scan, q: Question)
    requires InOrder(job, s) && s.t < |job.views| && Leads(job, s, q)
    requires q.AskBlock? ==> q.h !in job.views[s.t].chain || !job.views[s.t].lookup.Here?
    ensures InOrder(job, Ask(s, q))
  {
    AskGoesOn(job, s, q);
    FoundGoesOn(job, s, q);
  }

  lemma LastHeight(job: Job, s: Scan)
    requires Sound(job, s) && s.scanned != []
    ensures LastOf(s.scanned).Some? && job.w.height(LastOf(s.scanned).value) + 1 == job.start + |s.scanned|
  {
  }

  /** The views are used up. */
  lemma RunsOut(job: Job, s: Scan)
    requires InOrder(job, s) && Going(job, s) && UnderWay(s) && s.t >= |job.views|
    ensures Ended(job, s.(r := Running))
  {
  }

  lemma TipRegisters(job: Job, s: Scan, q: Question)
    requires InOrder(job, s) && UnderWay(s) && s.t < |job.views| && Leads(job, s, q) && q.AskTip?
    requires q.last.None? || q.last == LastOf(job.views[s.t].chain)
    ensures Ended(job, Ask(s, q).(registered := true))
  {
    AskInOrder(job, s, q);
  }

  lemma TipGoesOn(job: Job, s: Scan, last: Hash)
    requires InOrder(job, s) && s.t < |job.views| && Leads(job, s, AskTip(Some(last)))
    requires job.views[s.t].chain != [] && LastOf(job.views[s.t].chain) != Some(last)
    requires job.w.height(last) + 1 == s.minBlock > 0
    ensures AskedInv(job, Ranging(Ask(s, AskTip(Some(last)))))
  {
    AskInOrder(job, s, AskTip(Some(last)));
  }

  lemma TipAsks(job: Job, s: Scan)
    requires AllGood(job.w, job.views) && Sound(job, s) && UnderWay(s) && s.minBlock == job.start + |s.scanned|
    requires InOrder(job, s) && s.t < |job.views| && Leads(job, s, AskTip(LastOf(s.scanned)))
    requires job.maxBlock == MAX_INT32
    ensures AskedInv(job, AtEnd(job, s))
  {
    var last, v := LastOf(s.scanned), job.views[s.t];
    if last.None? || last == LastOf(v.chain) {
      TipRegisters(job, s, AskTip(last));
    } else {
      LastHeight(job, s);
      TipGoesOn(job, s, last.value);
    }
  }

  lemma TipFollows(job: Job, s: Scan)
    requires Sound(job, s) && s.minBlock == job.start + |s.scanned| && job.maxBlock == MAX_INT32
    requires 0 < s.t == |s.asked| && s.asked[s.t - 1].AskRange? && s.asked[s.t - 1].from == s.minBlock
    requires |job.views[s.t - 1].chain| <= s.minBlock
    ensures Leads(job, s, AskTip(LastOf(s.scanned)))
  {
    if s.scanned != [] {
      LastHeight(job, s);
    }
  }

  lemma AtEndAsks(job: Job, s: Scan)
    requires AllGood(job.w, job.views) && Sound(job, s) && UnderWay(s) && s.minBlock == job.start + |s.scanned|
    requires InOrder(job, s) && 0 < s.t && s.asked[s.t - 1].AskRange? && s.asked[s.t - 1].from == s.minBlock
    requires |job.views[s.t - 1].chain| <= s.minBlock
    ensures AskedInv(job, AtEnd(job, s))
  {
    if job.maxBlock != MAX_INT32 {
      assert EndsBy(job, s);
    } else if s.t >= |job.views| {
      RunsOut(job, s);
    } else {
      TipFollows(job, s);
      TipAsks(job, s);
    }
  }

  lemma RangeFollows(job: Job, s: Scan, v: View, to: nat)
    requires Good(job.w, v) && s.minBlock < to && HeightRange(v, s.minBlock, to) != []
    requires InOrder(job, s) && 0 < s.t && s.asked[s.t - 1] == AskRange(s.minBlock, to) && job.views[s.t - 1] == v
    ensures AskedInv(job, Listing(s, HeightRange(v, s.minBlock, to), 0))
  {
  }

  lemma RangeAsks(job: Job, s: Scan)
    requires AllGood(job.w, job.views) && job.chunk > 0 && Sound(job, s) && UnderWay(s)
    requires s.minBlock == job.start + |s.scanned| < job.maxBlock && s.t < |job.views|
    requires InOrder(job, s) && Leads(job, s, AskRange(s.minBlock, RangeEnd(job, s.minBlock)))
    ensures AskedInv(job, Fetch(job, s))
  {
    var to, v := RangeEnd(job, s.minBlock), job.views[s.t];
    var next := Ask(s, AskRange(s.minBlock, to));
    AskInOrder(job, s, AskRange(s.minBlock, to));
    SoundElsewhere(job, s, next);
    RangeIsPath(job.w, v, s.minBlock, to);
    if HeightRange(v, s.minBlock, to) == [] {
      AtEndAsks(job, next);
    } else {
      RangeFollows(job, next, v, to);
    }
  }

  lemma Finishes(job: Job, s: Scan)
    requires InOrder(job, s) && Going(job, s) && UnderWay(s) && job.start + |s.scanned| >= job.maxBlock
    ensures Ended(job, s)
  {
  }

  lemma FetchAsks(job: Job, s: Scan)
    requires AllGood(job.w, job.views) && job.chunk > 0 && Inv(job, Ranging(s)) && AskedInv(job, Ranging(s))
    ensures AskedInv(job, Fetch(job, s))
  {
    if s.minBlock >= job.maxBlock {
      Finishes(job, s);
    } else if s.t >= |job.views| {
      RunsOut(job, s);
    } else {
      RangeAsks(job, s);
    }
  }

  // ---------- Blocks ----------

  /** The block of the list under way is the one at the next height. */
  lemma NextHeight(job: Job, s: Scan, hashList: seq<Hash>, i: nat)
    requires OnList(job, s, hashList, i) && i < |hashList|
    ensures job.w.height(hashList[i]) == job.start + |s.scanned|
    ensures i > 0 ==> Continues(job, s, hashList[i])
  {
  }

  /** A block that was asked for ends the rescan. */
  lemma BlockEnds(job: Job, s: Scan, h: Hash, r: End)
    requires InOrder(job, s) && UnderWay(s) && s.t < |job.views| && Leads(job, s, AskBlock(h))
    requires job.w.height(h) == job.start + |s.scanned|
    requires
      var v := job.views[s.t];
      match r
      case DatabaseError => h !in v.chain || v.lookup.Failing?
      case Reorganized =>
        && h in v.chain
        && if v.lookup.Here? then !Continues(job, s, h) else v.lookup.NotFound? && job.maxBlock != MAX_INT32
      case Disconnected => h in v.chain && v.lookup.Here? && Continues(job, s, h) && v.quit
      case _ => false
    ensures Ended(job, Ask(s, AskBlock(h)).(r := r))
  {
    AskGoesOn(job, s, AskBlock(h));
    FoundGoesOn(job, s, AskBlock(h));
  }

  /** A block that was asked for is scanned. */
  lemma BlockIsScanned(job: Job, s: Scan, hashList: seq<Hash>, i: nat, s': Scan)
    requires InOrder(job, s) && s.t < |job.views| && i < |hashList| && Leads(job, s, AskBlock(hashList[i]))
    requires OnList(job, s, hashList, i)
    requires var v := job.views[s.t]; hashList[i] in v.chain && v.lookup.Here? && !v.quit
    requires s' == Ask(s, AskBlock(hashList[i])).(scanned := s.scanned + [hashList[i]], unspent := s'.unspent)
    ensures AskedInv(job, Listing(s', hashList, i + 1))
  {
    AskGoesOn(job, s, AskBlock(hashList[i]));
    FoundGoesOn(job, s, AskBlock(hashList[i]));
    NextHeight(job, s, hashList, i);
  }

  lemma TakeAsks(job: Job, s: Scan, hashList: seq<Hash>, i: nat)
    requires Inv(job, Listing(s, hashList, i)) && AskedInv(job, Listing(s, hashList, i))
    requires i < |hashList| && s.t < |job.views|
    requires hashList[i] in job.views[s.t].chain && job.views[s.t].lookup.Here?
    ensures AskedInv(job, Take(job, Ask(s, AskBlock(hashList[i])), job.views[s.t], hashList, i))
  {
    var v, h := job.views[s.t], hashList[i];
    var next := Ask(s, AskBlock(h));
    NextHeight(job, s, hashList, i);
    if !Continues(job, s, h) {
      BlockEnds(job, s, h, Reorganized);
    } else if v.quit {
      BlockEnds(job, s, h, Disconnected);
    } else {
      BlockIsScanned(job, s, hashList, i, Take(job, next, v, hashList, i).s);
    }
  }

  // ---------- Recoveries ----------

  lemma RunsDry(job: Job, s: Scan)
    requires InOrder(job, s) && UnderWay(s) && s.t < |job.views| && Leads(job, s, AskAgain(s.minBlock))
    requires |job.views[s.t].chain| <= s.minBlock
    ensures Ended(job, Ask(s, AskAgain(s.minBlock)).(ranDry := true))
  {
    AskInOrder(job, s, AskAgain(s.minBlock));
  }

  /** The first block of a recovery's range, when some block has been scanned before. */
  lemma FirstAsks(job: Job, s: Scan, hashList: seq<Hash>)
    requires InOrder(job, s) && UnderWay(s) && s.t < |job.views| && s.scanned != [] && hashList != []
    requires Leads(job, s, AskFirst(hashList[0])) && job.w.height(hashList[0]) == job.start + |s.scanned|
    ensures
      var next, found := Ask(s, AskFirst(hashList[0])), BlockByHash(job.views[s.t], hashList[0]);
      if !found.Here? then Ended(job, next.(r := DatabaseError))
      else if !Continues(job, s, hashList[0]) then Ended(job, next.(r := Reorganized))
      else AskedInv(job, Listing(next, hashList, 0))
  {
    AskInOrder(job, s, AskFirst(hashList[0]));
    FoundGoesOn(job, s, AskFirst(hashList[0]));
  }

  /** A recovery that finds blocks. */
  lemma AgainAsks(job: Job, s: Scan, v: View)
    requires Good(job.w, v) && InOrder(job, s) && UnderWay(s) && s.t < |job.views| && v == job.views[s.t]
    requires s.minBlock == job.start + |s.scanned| < job.maxBlock && Leads(job, s, AskAgain(s.minBlock))
    requires |v.chain| > s.minBlock
    ensures AskedInv(job, Recover(job, s))
  {
    var hashList, again := HeightRange(v, s.minBlock, job.maxBlock), Ask(s, AskAgain(s.minBlock));
    AskInOrder(job, s, AskAgain(s.minBlock));
    RangeIsPath(job.w, v, s.minBlock, job.maxBlock);
    assert hashList[0] == v.chain[s.minBlock];
    if s.scanned == [] {
      assert AskedInv(job, Listing(again, hashList, 0));
    } else if again.t >= |job.views| {
      RunsOut(job, again);
    } else {
      FirstAsks(job, again, hashList);
    }
  }

  lemma RecoverAsks(job: Job, s: Scan)
    requires AllGood(job.w, job.views) && InOrder(job, s) && Going(job, s) && UnderWay(s)
    requires s.minBlock == job.start + |s.scanned| < job.maxBlock && Leads(job, s, AskAgain(s.minBlock))
    ensures AskedInv(job, Recover(job, s))
  {
    if s.t >= |job.views| {
      RunsOut(job, s);
    } else {
      RangeIsPath(job.w, job.views[s.t], s.minBlock, job.maxBlock);
      if |job.views[s.t].chain| <= s.minBlock {
        RunsDry(job, s);
      } else {
        AgainAsks(job, s, job.views[s.t]);
      }
    }
  }

  /** A block that is not on file, in an open rescan. */
  lemma MissingFollows(job: Job, s: Scan, h: Hash, from: Scan)
    requires InOrder(job, s) && s.t < |job.views| && Leads(job, s, AskBlock(h)) && job.maxBlock == MAX_INT32
    requires h in job.views[s.t].chain && job.views[s.t].lookup.NotFound?
    requires job.w.height(h) == job.start + |s.scanned| == from.minBlock
    requires from == Ask(s, AskBlock(h)).(minBlock := from.minBlock, recoveries := from.recoveries)
    ensures InOrder(job, from) && Going(job, from) && Leads(job, from, AskAgain(from.minBlock))
  {
    AskInOrder(job, s, AskBlock(h));
  }

  /** The turn of a walk that leads to a recovery. */
  lemma WalkRecovers(job: Job, s: Scan, hashList: seq<Hash>, i: nat) returns (from: Scan)
    requires i < |hashList| && s.t < |job.views| && job.maxBlock == MAX_INT32
    requires BlockByHash(job.views[s.t], hashList[i]).NotFound?
    ensures from == Ask(s, AskBlock(hashList[i])).(minBlock := s.minBlock + i, recoveries := s.recoveries + 1)
    ensures Walk(job, s, hashList, i) == Recover(job, from)
  {
    from := Ask(s, AskBlock(hashList[i])).(minBlock := s.minBlock + i, recoveries := s.recoveries + 1);
  }

  lemma MissingAsks(job: Job, s: Scan, hashList: seq<Hash>, i: nat)
    requires AllGood(job.w, job.views) && UnderWay(s) && OnList(job, s, hashList, i) && i < |hashList|
    requires InOrder(job, s) && s.t < |job.views| && Leads(job, s, AskBlock(hashList[i]))
    requires job.maxBlock == MAX_INT32 && BlockByHash(job.views[s.t], hashList[i]).NotFound?
    ensures AskedInv(job, Walk(job, s, hashList, i))
  {
    var from := WalkRecovers(job, s, hashList, i);
    NextHeight(job, s, hashList, i);
    MissingFollows(job, s, hashList[i], from);
    RecoverAsks(job, from);
  }

  lemma FoundAsks(job: Job, s: Scan, hashList: seq<Hash>, i: nat)
    requires Inv(job, Listing(s, hashList, i)) && AskedInv(job, Listing(s, hashList, i))
    requires i < |hashList| && s.t < |job.views| && BlockByHash(job.views[s.t], hashList[i]).Here?
    ensures AskedInv(job, Walk(job, s, hashList, i))
  {
    TakeAsks(job, s, hashList, i);
    assert Walk(job, s, hashList, i) == Take(job, Ask(s, AskBlock(hashList[i])), job.views[s.t], hashList, i);
  }

  lemma FailingAsks(job: Job, s: Scan, hashList: seq<Hash>, i: nat)
    requires UnderWay(s) && OnList(job, s, hashList, i) && i < |hashList|
    requires InOrder(job, s) && s.t < |job.views| && Leads(job, s, AskBlock(hashList[i]))
    requires
      var found := BlockByHash(job.views[s.t], hashList[i]);
      found.Failing? || (found.NotFound? && job.maxBlock != MAX_INT32)
    ensures AskedInv(job, Walk(job, s, hashList, i))
  {
    var r := if BlockByHash(job.views[s.t], hashList[i]).Failing? then DatabaseError else Reorganized;
    NextHeight(job, s, hashList, i);
    BlockEnds(job, s, hashList[i], r);
    assert Walk(job, s, hashList, i) == Done(Ask(s, AskBlock(hashList[i])).(r := r));
  }

  lemma WalkStops(job: Job, s: Scan, hashList: seq<Hash>, i: nat)
    requires UnderWay(s) && AskedInv(job, Listing(s, hashList, i)) && (i >= |hashList| || s.t >= |job.views|)
    ensures AskedInv(job, Walk(job, s, hashList, i))
  {
    if i < |hashList| {
      RunsOut(job, s);
    }
  }

  lemma WalkAsks(job: Job, s: Scan, hashList: seq<Hash>, i: nat)
    requires AllGood(job.w, job.views) && Inv(job, Listing(s, hashList, i)) && AskedInv(job, Listing(s, hashList, i))
    ensures AskedInv(job, Walk(job, s, hashList, i))
  {
    if i >= |hashList| || s.t >= |job.views| {
      WalkStops(job, s, hashList, i);
    } else if BlockByHash(job.views[s.t], hashList[i]).Here? {
      FoundAsks(job, s, hashList, i);
    } else if BlockByHash(job.views[s.t], hashList[i]).NotFound? && job.maxBlock == MAX_INT32 {
      MissingAsks(job, s, hashList, i);
    } else {
      FailingAsks(job, s, hashList, i);
    }
  }

  lemma TurnAsks(job: Job, c: Cursor)
    requires AllGood(job.w, job.views) && job.chunk > 0 && Inv(job, c) && AskedInv(job, c)
    ensures AskedInv(job, Turn(job, c))
  {
    match c
    case Ranging(s) => FetchAsks(job, s);
    case Listing(s, hashList, i) => WalkAsks(job, s, hashList, i);
    case Done(s) =>
  }

  lemma FinishAsks(job: Job, c: Cursor)
    requires AllGood(job.w, job.views) && job.chunk > 0 && Inv(job, c) && AskedInv(job, c)
    ensures AskedInv(job, Done(Finish(job, c)))
  {
    forall d: Cursor | Inv(job, d) && AskedInv(job, d) ensures Inv(job, Turn(job, d)) && AskedInv(job, Turn(job, d)) {
      TurnKeepsInv(job, d);
      TurnAsks(job, d);
    }
    FinishHolds(job, c, d => Inv(job, d) && AskedInv(job, d));
  }

  /** However the chain changes, every question follows from the answer before.  The blocks scanned are those
      asked for and found, but for a last one on another fork or at which the client had quit.  Which end the
      rescan comes to is decided by the answer to its last question. */
  lemma RescanEnds(job: Job)
    requires AllGood(job.w, job.views) && job.chunk > 0
    ensures var s := Rescanned(job);
      && s.t == |s.asked| && Conversation(job, s.asked)
      && (s.t == 0 ==> s.r.Finished? || s.r.Running?) && (s.t > 0 ==> EndsBy(job, s))
      && s.scanned ==
         Found(job, if s.t > 0 && (s.r.Disconnected? || s.r.Reorganized?) then s.asked[..s.t - 1] else s.asked)
  {
    assert Path(job.w, [], job.start) && Fetched(job.views, 0, []);
    FinishAsks(job, Init(job));
  }

  /** A recovery whose first block was found and goes on from the last one scanned goes on to scan it: the next
      question is for that block. */
  lemma RecoveryGoesOn(job: Job, k: nat)
    requires AllGood(job.w, job.views) && job.chunk > 0
    requires var s := Rescanned(job); k + 1 < s.t && |s.asked| == s.t && s.asked[k].AskFirst?
    ensures var s := Rescanned(job);
      && s.t <= |job.views| && s.asked[k].h in job.views[k].chain && job.views[k].lookup.Here?
      && s.asked[k + 1] == AskBlock(s.asked[k].h)
  {
    RescanEnds(job);
    assert Link(job, Rescanned(job).asked, k + 1);
  }
}
