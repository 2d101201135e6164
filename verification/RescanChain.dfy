/**
 The chunked rescan of a range of heights while the best chain may change between any two questions put to
 it.  Each question is answered from a view of the chain at that moment.  The rescan is first defined one
 turn of its loops at a time; the loops themselves are proved to take those turns.
 */
module RescanChain {
  import opened Common
  import opened Watching
  import opened Rescan

  type Hash = nat

  const MAX_INT32: nat := 0x7fff_ffff

  /** What a block's hash determines. */
  datatype World = World(parent: Hash -> Hash, height: Hash -> int, txs: Hash -> seq<Tx>)

  /** How the database answers for a block of the best chain; a block off the best chain is a plain error. */
  datatype Lookup = Here | NotFound | Failing

  /** The best chain, from the first block up, with the database's mood and whether the client is gone. */
  datatype View = View(chain: seq<Hash>, lookup: Lookup, quit: bool)

  ghost predicate Good(w: World, v: View) {
    && v.chain != []
    && (forall k :: 0 <= k < |v.chain| ==> w.height(v.chain[k]) == k)
    && (forall k :: 0 < k < |v.chain| ==> w.parent(v.chain[k]) == v.chain[k - 1])
  }

  ghost predicate AllGood(w: World, views: seq<View>) {
    forall k :: 0 <= k < |views| ==> Good(w, views[k])
  }

  /** HeightRange: the hashes of heights `start` up to but not including `end`, as far as the chain goes. */
  function HeightRange(v: View, start: nat, end: nat): seq<Hash> {
    if start >= |v.chain| || end <= start then []
    else if end <= |v.chain| then v.chain[start..end] else v.chain[start..]
  }

  /** BlockByHash */
  function BlockByHash(v: View, h: Hash): Lookup {
    if h in v.chain then v.lookup else Failing
  }

  /** Blocks at consecutive heights, each the parent of the next. */
  ghost predicate Path(w: World, hs: seq<Hash>, start: int) {
    && (forall k :: 0 <= k < |hs| ==> w.height(hs[k]) == start + k)
    && (forall k :: 0 < k < |hs| ==> w.parent(hs[k]) == hs[k - 1])
  }

  function ScanAll(w: World, u: set<OutPoint>, addrs: set<string>, hs: seq<Hash>): set<OutPoint> {
    if hs == [] then u
    else ScanBlock(ScanAll(w, u, addrs, hs[..|hs| - 1]), addrs, w.txs(hs[|hs| - 1]))
  }

  function LastOf(hs: seq<Hash>): Option<Hash> {
    if hs == [] then None else Some(hs[|hs| - 1])
  }

  // ---------- Turns ----------

  datatype End =
    | Finished
    | Reorganized
    | DatabaseError
    | Disconnected
    | Running // the views are used up first

  /** What a rescan asks of the chain: the hashes of a range of heights, whether the last block scanned is the
      tip, a block; and, in a recovery, the rest of the range and its first block. */
  datatype Question =
    | AskRange(from: nat, to: nat)
    | AskTip(last: Option<Hash>)
    | AskBlock(h: Hash)
    | AskAgain(from: nat)
    | AskFirst(h: Hash)

  /** What never changes during a rescan.  The chunk is 50000 heights in the program. */
  datatype Job = Job(
    w: World, views: seq<View>, start: nat, maxBlock: nat, chunk: nat, addrs: set<string>, unspent: set<OutPoint>)

  /** The scan so far: how it stands, the height to go on from, the blocks scanned and what is unspent after
      them, whether the client has been registered, whether a recovery found no more blocks, how many
      recoveries were started, how many views have been used, and what was asked of each. */
  datatype Scan = Scan(
    r: End, minBlock: nat, scanned: seq<Hash>, unspent: set<OutPoint>, registered: bool, ranDry: bool,
    recoveries: nat, t: nat, asked: seq<Question>)

  function Ask(s: Scan, q: Question): Scan {
    s.(t := s.t + 1, asked := s.asked + [q])
  }

  /** Where the program is: about to fetch a range, in a list of hashes, or done. */
  datatype Cursor = Ranging(s: Scan) | Listing(s: Scan, hashList: seq<Hash>, i: nat) | Done(s: Scan)

  function Init(job: Job): Cursor {
    Ranging(Scan(Finished, job.start, [], job.unspent, false, false, 0, 0, []))
  }

  /** No blocks are left in the range.  An open rescan pauses the chain and looks at its tip: if that is the
      last block scanned, or none was, the client is registered; otherwise the range is fetched again. */
  function AtEnd(job: Job, s: Scan): Cursor {
    if job.maxBlock != MAX_INT32 then Done(s)
    else if s.t >= |job.views| then Done(s.(r := Running))
    else if s.scanned == [] || LastOf(s.scanned) == LastOf(job.views[s.t].chain) then
      Done(Ask(s, AskTip(LastOf(s.scanned))).(registered := true))
    else Ranging(Ask(s, AskTip(LastOf(s.scanned))))
  }

  /** The end of a range: at most a chunk away. */
  function RangeEnd(job: Job, from: nat): nat {
    if job.maxBlock > from && job.maxBlock - from > job.chunk then from + job.chunk else job.maxBlock
  }

  /** The next range of hashes, at most a chunk of them. */
  function Fetch(job: Job, s: Scan): Cursor {
    if s.minBlock >= job.maxBlock then Done(s)
    else if s.t >= |job.views| then Done(s.(r := Running))
    else
      var maxLoopBlock := RangeEnd(job, s.minBlock);
      var hashList := HeightRange(job.views[s.t], s.minBlock, maxLoopBlock);
      var next := Ask(s, AskRange(s.minBlock, maxLoopBlock));
      if hashList == [] then AtEnd(job, next) else Listing(next, hashList, 0)
  }

  /** recoverFromReorg: a fresh range, checked to continue the blocks already scanned. */
  function Recover(job: Job, s: Scan): Cursor {
    if s.t >= |job.views| then Done(s.(r := Running))
    else
      var hashList := HeightRange(job.views[s.t], s.minBlock, job.maxBlock);
      var again := Ask(s, AskAgain(s.minBlock));
      if hashList == [] then Done(again.(ranDry := true))
      else if s.scanned == [] then Listing(again, hashList, 0)
      else if s.t + 1 >= |job.views| then Done(again.(r := Running))
      else
        var next := Ask(again, AskFirst(hashList[0]));
        if !BlockByHash(job.views[s.t + 1], hashList[0]).Here? then Done(next.(r := DatabaseError))
        else if Some(job.w.parent(hashList[0])) != LastOf(s.scanned) then Done(next.(r := Reorganized))
        else Listing(next, hashList, 0)
  }

  /** A block of the list was fetched: it is scanned, unless it is the first and on another fork, or the
      client is gone. */
  function Take(job: Job, s: Scan, v: View, hashList: seq<Hash>, i: nat): Cursor
    requires i < |hashList|
  {
    var h := hashList[i];
    if i == 0 && s.scanned != [] && Some(job.w.parent(h)) != LastOf(s.scanned) then Done(s.(r := Reorganized))
    else if v.quit then Done(s.(r := Disconnected))
    else
      var u := ScanBlock(s.unspent, job.addrs, job.w.txs(h));
      Listing(s.(scanned := s.scanned + [h], unspent := u), hashList, i + 1)
  }

  /** One block of the list. */
  function Walk(job: Job, s: Scan, hashList: seq<Hash>, i: nat): Cursor {
    if i >= |hashList| then Ranging(s.(minBlock := s.minBlock + |hashList|))
    else if s.t >= |job.views| then Done(s.(r := Running))
    else
      var v, next := job.views[s.t], Ask(s, AskBlock(hashList[i]));
      match BlockByHash(v, hashList[i])
      case Failing => Done(next.(r := DatabaseError))
      case NotFound =>
        if job.maxBlock != MAX_INT32 then Done(next.(r := Reorganized))
        else Recover(job, next.(minBlock := s.minBlock + i, recoveries := s.recoveries + 1))
      case Here => Take(job, next, v, hashList, i)
  }

  function Turn(job: Job, c: Cursor): Cursor {
    match c
    case Ranging(s) => Fetch(job, s)
    case Listing(s, hashList, i) => Walk(job, s, hashList, i)
    case Done(s) => c
  }

  /** How many views are left, and whether a list is under way. */
  function ViewsLeft(job: Job, c: Cursor): nat {
    if c.s.t >= |job.views| then 0 else |job.views| - c.s.t
  }

  function Rank(c: Cursor): nat {
    if c.Listing? then 1 else 0
  }

  lemma TurnAdvances(job: Job, c: Cursor)
    requires !c.Done?
    ensures Turn(job, c).Done? || ViewsLeft(job, Turn(job, c)) < ViewsLeft(job, c) ||
      (ViewsLeft(job, Turn(job, c)) == ViewsLeft(job, c) && Rank(Turn(job, c)) < Rank(c))
  {
  }

  /** The rescan run to its end. */
  function Finish(job: Job, c: Cursor): Scan
    decreases ViewsLeft(job, c), if c.Done? then 0 else 1 + Rank(c)
  {
    if c.Done? then c.s
    else
      TurnAdvances(job, c);
      Finish(job, Turn(job, c))
  }

  // ---------- What every turn keeps ----------

  /** Each block scanned was on the best chain when it was fetched. */
  ghost predicate Fetched(views: seq<View>, t: int, hs: seq<Hash>) {
    forall k :: 0 <= k < |hs| ==> exists j :: 0 <= j < t && j < |views| && hs[k] in views[j].chain
  }

  /** Some view up to now had no block at the height or above. */
  ghost predicate RanOut(views: seq<View>, t: int, height: int) {
    exists j :: 0 <= j < t && j < |views| && |views[j].chain| <= height
  }

  /** The blocks scanned are one path from the first height, and what is unspent is theirs. */
  ghost predicate Sound(job: Job, s: Scan) {
    && s.t <= |job.views| && Path(job.w, s.scanned, job.start) && Fetched(job.views, s.t, s.scanned)
    && s.unspent == ScanAll(job.w, job.unspent, job.addrs, s.scanned)
    && (job.start + |s.scanned| <= job.maxBlock || s.scanned == [])
  }

  /** The list under way continues the blocks scanned, of which its first `i` are the last. */
  ghost predicate OnList(job: Job, s: Scan, hashList: seq<Hash>, i: nat) {
    && i <= |hashList| && hashList != [] && s.minBlock + |hashList| <= job.maxBlock
    && Path(job.w, hashList, s.minBlock) && s.minBlock + i == job.start + |s.scanned|
    && (i > 0 ==> LastOf(s.scanned) == Some(hashList[i - 1]))
  }

  predicate UnderWay(s: Scan) {
    s.r.Finished? && !s.registered && !s.ranDry
  }

  /** The last two answers were that a block of the best chain at the next height is not on file, and then
      that the best chain has no block at that height. */
  predicate Dry(job: Job, s: Scan) {
    var next := job.start + |s.scanned|;
    && 2 <= s.t <= |job.views| && job.views[s.t - 2].lookup.NotFound? && |job.views[s.t - 2].chain| > next
    && |job.views[s.t - 1].chain| <= next
  }

  /** The client is registered only by an open rescan that has finished, with its last block the tip. */
  predicate Registrable(job: Job, s: Scan) {
    && s.r.Finished? && job.maxBlock == MAX_INT32 && 0 < s.t <= |job.views|
    && (s.scanned != [] ==> LastOf(job.views[s.t - 1].chain) == LastOf(s.scanned))
  }

  /** A rescan that finishes short of its last height has met a chain that ended there.  An open one has
      registered its client, or else it finished by a recovery: exactly when its last two answers were so. */
  ghost predicate EndsWell(job: Job, s: Scan) {
    && RanOut(job.views, s.t, job.start + |s.scanned|)
    && (job.maxBlock == MAX_INT32 ==> (s.registered <==> !Dry(job, s)) && (s.ranDry <==> Dry(job, s)))
  }

  ghost predicate Inv(job: Job, c: Cursor) {
    && Sound(job, c.s)
    && match c
       case Ranging(s) => UnderWay(s) && s.minBlock == job.start + |s.scanned|
       case Listing(s, hashList, i) => UnderWay(s) && OnList(job, s, hashList, i)
       case Done(s) =>
         && (s.registered ==> Registrable(job, s))
         && (s.r.Finished? && job.start + |s.scanned| < job.maxBlock ==> EndsWell(job, s))
  }

  lemma RangeIsPath(w: World, v: View, start: nat, end: nat)
    requires Good(w, v)
    ensures Path(w, HeightRange(v, start, end), start)
    ensures start < end ==> |HeightRange(v, start, end)| <= end - start
    ensures start < end ==> (HeightRange(v, start, end) == [] <==> |v.chain| <= start)
  {
  }

  lemma PathGrows(w: World, hs: seq<Hash>, start: int, h: Hash)
    requires Path(w, hs, start) && w.height(h) == start + |hs|
    requires hs != [] ==> w.parent(h) == hs[|hs| - 1]
    ensures Path(w, hs + [h], start)
  {
  }

  /** Soundness is about the blocks scanned; other fields may change, and more views be used. */
  lemma SoundElsewhere(job: Job, s: Scan, s': Scan)
    requires Sound(job, s) && s'.scanned == s.scanned && s'.unspent == s.unspent && s.t <= s'.t <= |job.views|
    ensures Sound(job, s')
  {
  }

  lemma AtEndKeepsInv(job: Job, s: Scan)
    requires Sound(job, s) && UnderWay(s) && s.minBlock == job.start + |s.scanned|
    requires 0 < s.t && |job.views[s.t - 1].chain| <= s.minBlock
    ensures Inv(job, AtEnd(job, s))
  {
    SoundElsewhere(job, s, AtEnd(job, s).s);
    assert RanOut(job.views, s.t, s.minBlock) && RanOut(job.views, s.t + 1, s.minBlock);
  }

  lemma ListStarts(job: Job, s: Scan, v: View, end: nat)
    requires Good(job.w, v) && Sound(job, s) && UnderWay(s) && s.minBlock == job.start + |s.scanned|
    requires s.minBlock < end <= job.maxBlock && HeightRange(v, s.minBlock, end) != []
    ensures Inv(job, Listing(s, HeightRange(v, s.minBlock, end), 0))
  {
    RangeIsPath(job.w, v, s.minBlock, end);
  }

  lemma FetchKeepsInv(job: Job, s: Scan)
    requires AllGood(job.w, job.views) && job.chunk > 0 && Inv(job, Ranging(s))
    ensures Inv(job, Fetch(job, s))
  {
    if s.minBlock >= job.maxBlock {
      assert Fetch(job, s) == Done(s);
    } else if s.t >= |job.views| {
      assert Fetch(job, s) == Done(s.(r := Running));
    } else {
      var maxLoopBlock := RangeEnd(job, s.minBlock);
      var v, next := job.views[s.t], Ask(s, AskRange(s.minBlock, maxLoopBlock));
      SoundElsewhere(job, s, next);
      if HeightRange(v, s.minBlock, maxLoopBlock) == [] {
        RangeIsPath(job.w, v, s.minBlock, maxLoopBlock);
        AtEndKeepsInv(job, next);
        assert Fetch(job, s) == AtEnd(job, next);
      } else {
        ListStarts(job, next, v, maxLoopBlock);
        assert Fetch(job, s) == Listing(next, HeightRange(v, s.minBlock, maxLoopBlock), 0);
      }
    }
  }

  lemma RecoverKeepsInv(job: Job, s: Scan)
    requires AllGood(job.w, job.views) && Sound(job, s) && UnderWay(s) && job.maxBlock == MAX_INT32
    requires s.minBlock == job.start + |s.scanned| < job.maxBlock
    requires 0 < s.t && job.views[s.t - 1].lookup.NotFound? && |job.views[s.t - 1].chain| > s.minBlock
    ensures Inv(job, Recover(job, s))
  {
    var c := Recover(job, s);
    SoundElsewhere(job, s, c.s);
    if s.t < |job.views| {
      RangeIsPath(job.w, job.views[s.t], s.minBlock, job.maxBlock);
      assert c.Done? && c.s.ranDry ==> RanOut(job.views, s.t + 1, s.minBlock);
    }
  }

  lemma TakeKeepsInv(job: Job, s: Scan, v: View, hashList: seq<Hash>, i: nat)
    requires Sound(job, s) && UnderWay(s) && OnList(job, s, hashList, i) && i < |hashList|
    requires 0 < s.t && v == job.views[s.t - 1] && hashList[i] in v.chain
    ensures Inv(job, Take(job, s, v, hashList, i))
  {
    var h := hashList[i];
    if Take(job, s, v, hashList, i).Listing? {
      PathGrows(job.w, s.scanned, job.start, h);
      assert (s.scanned + [h])[..|s.scanned|] == s.scanned;
    }
  }

  lemma WalkKeepsInv(job: Job, s: Scan, hashList: seq<Hash>, i: nat)
    requires AllGood(job.w, job.views) && Inv(job, Listing(s, hashList, i))
    ensures Inv(job, Walk(job, s, hashList, i))
  {
    if i < |hashList| && s.t < |job.views| {
      var v, h, next := job.views[s.t], hashList[i], Ask(s, AskBlock(hashList[i]));
      SoundElsewhere(job, s, next);
      match BlockByHash(v, h)
      case Failing =>
      case NotFound =>
        if job.maxBlock == MAX_INT32 {
          var from := next.(minBlock := s.minBlock + i, recoveries := s.recoveries + 1);
          SoundElsewhere(job, s, from);
          OnChain(job.w, v, h);
          RecoverKeepsInv(job, from);
        }
      case Here => TakeKeepsInv(job, next, v, hashList, i);
    }
  }

  lemma OnChain(w: World, v: View, h: Hash)
    requires Good(w, v) && h in v.chain
    ensures 0 <= w.height(h) < |v.chain| && v.chain[w.height(h)] == h
  {
    var k :| 0 <= k < |v.chain| && v.chain[k] == h;
    assert w.height(v.chain[k]) == k;
  }

  lemma TurnKeepsInv(job: Job, c: Cursor)
    requires AllGood(job.w, job.views) && job.chunk > 0 && Inv(job, c)
    ensures Inv(job, Turn(job, c))
  {
    match c
    case Ranging(s) => FetchKeepsInv(job, s);
    case Listing(s, hashList, i) => WalkKeepsInv(job, s, hashList, i);
    case Done(s) =>
  }

  /** What every turn keeps holds at the end. */
  lemma {:induction false} FinishHolds(job: Job, c: Cursor, holds: Cursor -> bool)
    requires holds(c) && forall d: Cursor :: !d.Done? && holds(d) ==> holds(Turn(job, d))
    ensures holds(Done(Finish(job, c)))
    decreases ViewsLeft(job, c), if c.Done? then 0 else 1 + Rank(c)
  {
    if c.Done? {
    } else {
      TurnAdvances(job, c);
      FinishHolds(job, Turn(job, c), holds);
    }
  }

  lemma FinishKeepsInv(job: Job, c: Cursor)
    requires AllGood(job.w, job.views) && job.chunk > 0 && Inv(job, c)
    ensures Inv(job, Done(Finish(job, c)))
  {
    forall d: Cursor | Inv(job, d) ensures Inv(job, Turn(job, d)) {
      TurnKeepsInv(job, d);
    }
    FinishHolds(job, c, d => Inv(job, d));
  }

  /** A rescan as a whole. */
  function Rescanned(job: Job): Scan {
    Finish(job, Init(job))
  }

  /** However the chain changes meanwhile, the blocks scanned are one path of parents and children from the
      first height on.  The client is only registered by an open rescan, under the pause, when its last
      block is the tip or it scanned none.  An open rescan that finishes has registered its client unless
      its last two answers were a block not on file and a chain with no more blocks. */
  lemma RescanIsSound(job: Job)
    requires AllGood(job.w, job.views) && job.chunk > 0
    ensures var s := Rescanned(job);
      && Sound(job, s) && (s.registered ==> Registrable(job, s))
      && (s.r.Finished? && job.start + |s.scanned| < job.maxBlock ==> EndsWell(job, s))
  {
    assert Path(job.w, [], job.start) && Fetched(job.views, 0, []);
    FinishKeepsInv(job, Init(job));
  }

  // ---------- Recoveries ----------

  /** The database never misses a block of the best chain; it may fail otherwise. */
  predicate NoneMissing(views: seq<View>) {
    forall j :: 0 <= j < |views| ==> !views[j].lookup.NotFound?
  }

  /** While the database misses no block of the best chain, no reorganization starts a recovery. */
  lemma {:induction false} NoRecovery(job: Job, c: Cursor)
    requires NoneMissing(job.views) && c.s.recoveries == 0 && !c.s.ranDry
    ensures Finish(job, c).recoveries == 0 && !Finish(job, c).ranDry
    decreases ViewsLeft(job, c), if c.Done? then 0 else 1 + Rank(c)
  {
    if c.Done? {
    } else {
      TurnAdvances(job, c);
      NoRecovery(job, Turn(job, c));
    }
  }

  /** A block that has left the best chain ends the rescan with an error, whatever the database holds. */
  lemma LeftTheChain(job: Job, s: Scan, hashList: seq<Hash>, i: nat)
    requires i < |hashList| && s.t < |job.views| && hashList[i] !in job.views[s.t].chain
    ensures Finish(job, Listing(s, hashList, i)) == Ask(s, AskBlock(hashList[i])).(r := DatabaseError)
  {
    assert Turn(job, Listing(s, hashList, i)) == Done(Ask(s, AskBlock(hashList[i])).(r := DatabaseError));
  }

  /** A rescan waits as long as the chain has no new block and its tip is not the last one scanned. */
  lemma {:induction false} WaitsOn(job: Job, s: Scan)
    requires job.maxBlock == MAX_INT32 && s.minBlock < job.maxBlock && s.scanned != [] && s.t <= |job.views|
    requires forall j :: s.t <= j < |job.views| ==>
      |job.views[j].chain| <= s.minBlock && LastOf(job.views[j].chain) != LastOf(s.scanned)
    ensures Finish(job, Ranging(s)).r.Running?
    decreases |job.views| - s.t
  {
    var c := Turn(job, Ranging(s));
    if s.t + 1 < |job.views| {
      WaitsOn(job, c.s);
    }
  }

  function ExampleWorld(): World {
    World((h: Hash) => if h > 0 then h - 1 else 0, (h: Hash) => h, (h: Hash) => [])
  }

  function DryViews(): seq<View> {
    [View([0, 1, 2], Here, false), View([0, 1, 2], Here, false), View([0, 1, 2], NotFound, false),
     View([0, 1], Here, false)]
  }

  function DryJob(): Job {
    Job(ExampleWorld(), DryViews(), 1, MAX_INT32, 50000, {}, {})
  }

  /** After the first answer, with the list of both blocks. */
  function DryStart(): Cursor {
    Listing(Scan(Finished, 1, [], {}, false, false, 0, 1, [AskRange(1, 50001)]), [1, 2], 0)
  }

  /** After the first block. */
  function DryMiddle(): Cursor {
    Listing(Scan(Finished, 1, [1], {}, false, false, 0, 2, [AskRange(1, 50001), AskBlock(1)]), [1, 2], 1)
  }

  function DryEnd(): Scan {
    Scan(Finished, 2, [1], {}, false, true, 1, 4, [AskRange(1, 50001), AskBlock(1), AskBlock(2), AskAgain(2)])
  }

  lemma DryFirst()
    ensures Turn(DryJob(), Init(DryJob())) == DryStart()
  {
  }

  lemma DrySecond()
    ensures Turn(DryJob(), DryStart()) == DryMiddle()
  {
  }

  lemma DryThird()
    ensures Turn(DryJob(), DryMiddle()) == Done(DryEnd())
  {
  }

  lemma FinishAfter(job: Job, c: Cursor)
    requires !c.Done?
    ensures Finish(job, c) == Finish(job, Turn(job, c))
  {
  }

  lemma DryRescan()
    ensures Rescanned(DryJob()) == DryEnd()
  {
    FinishAfter(DryJob(), Init(DryJob()));
    DryFirst();
    FinishAfter(DryJob(), DryStart());
    DrySecond();
    FinishAfter(DryJob(), DryMiddle());
    DryThird();
  }

  lemma DryViewsAreGood()
    ensures AllGood(ExampleWorld(), DryViews())
  {
  }

  /** An open rescan of two blocks, the second of which is not on file and then leaves the chain: it finishes
      with the tip as its last block, and its client is not registered. */
  lemma DryExample()
    ensures AllGood(DryJob().w, DryJob().views)
    ensures var s := Rescanned(DryJob());
      && s.r.Finished? && s.scanned == [1] && LastOf(DryViews()[3].chain) == Some(1)
      && !s.registered && s.ranDry && s.recoveries == 1
  {
    DryViewsAreGood();
    DryRescan();
  }

  // ---------- The loops ----------

  /** recoverFromReorg, with the branches its result leads to. */
  method RecoverFromReorg(job: Job, s: Scan) returns (c: Cursor)
    ensures c == Recover(job, s)
  {
    if s.t >= |job.views| {
      return Done(s.(r := Running));
    }
    var hashList := HeightRange(job.views[s.t], s.minBlock, job.maxBlock);
    var next := Ask(s, AskAgain(s.minBlock));
    if hashList == [] {
      return Done(next.(ranDry := true));
    }
    if s.scanned != [] {
      if next.t >= |job.views| {
        return Done(next.(r := Running));
      }
      var found := BlockByHash(job.views[next.t], hashList[0]);
      next := Ask(next, AskFirst(hashList[0]));
      if !found.Here? {
        return Done(next.(r := DatabaseError));
      }
      if job.w.parent(hashList[0]) != s.scanned[|s.scanned| - 1] {
        return Done(next.(r := Reorganized));
      }
    }
    c := Listing(next, hashList, 0);
  }

  /** One pass of the loop over a list of hashes. */
  method ScanNext(job: Job, s0: Scan, hashList: seq<Hash>, i: nat) returns (c: Cursor)
    requires i < |hashList|
    ensures c == Walk(job, s0, hashList, i)
  {
    var s := s0;
    if s.t >= |job.views| {
      return Done(s.(r := Running));
    }
    var v, h := job.views[s.t], hashList[i];
    s := Ask(s, AskBlock(h));
    var found := BlockByHash(v, h);
    if found.Failing? {
      return Done(s.(r := DatabaseError));
    }
    if found.NotFound? {
      if job.maxBlock != MAX_INT32 {
        return Done(s.(r := Reorganized));
      }
      c := RecoverFromReorg(job, s.(minBlock := s.minBlock + i, recoveries := s.recoveries + 1));
      return;
    }
    if i == 0 && s.scanned != [] {
      if job.w.parent(h) != s.scanned[|s.scanned| - 1] {
        return Done(s.(r := Reorganized));
      }
    }
    if v.quit {
      return Done(s.(r := Disconnected));
    }
    var u, sent, quit := RescanBlock(s.unspent, job.addrs, job.w.txs(h), None);
    c := Listing(s.(scanned := s.scanned + [h], unspent := u), hashList, i + 1);
  }

  /** The loop over a list of hashes, which a recovery may replace. */
  method ScanHashes(job: Job, s0: Scan, hashes: seq<Hash>) returns (s: Scan, done: bool)
    ensures Finish(job, Listing(s0, hashes, 0)) == Finish(job, if done then Done(s) else Ranging(s))
    ensures done || ViewsLeft(job, Ranging(s)) <= ViewsLeft(job, Ranging(s0))
  {
    s := s0;
    var hashList, i: nat := hashes, 0;
    while i < |hashList|
      invariant Finish(job, Listing(s, hashList, i)) == Finish(job, Listing(s0, hashes, 0))
      invariant i <= |hashList| && ViewsLeft(job, Ranging(s)) <= ViewsLeft(job, Ranging(s0))
      decreases ViewsLeft(job, Ranging(s))
    {
      var before := Listing(s, hashList, i);
      var c := ScanNext(job, s, hashList, i);
      WalkAdvances(job, s, hashList, i);
      assert Finish(job, before) == Finish(job, c);
      if c.Done? {
        return c.s, true;
      }
      s, hashList, i := c.s, c.hashList, c.i;
    }
    assert Turn(job, Listing(s, hashList, i)) == Ranging(s.(minBlock := s.minBlock + |hashList|));
    s, done := s.(minBlock := s.minBlock + |hashList|), false;
  }

  lemma WalkAdvances(job: Job, s: Scan, hashList: seq<Hash>, i: nat)
    requires i < |hashList|
    ensures var c := Walk(job, s, hashList, i);
      c.Done? || (c.Listing? && c.i <= |c.hashList| && ViewsLeft(job, c) < ViewsLeft(job, Ranging(s)))
  {
  }

  /** No blocks are left in the range. */
  method RegisterOrWait(job: Job, s: Scan) returns (c: Cursor)
    ensures c == AtEnd(job, s)
  {
    if job.maxBlock != MAX_INT32 {
      return Done(s);
    }
    if s.t >= |job.views| {
      return Done(s.(r := Running));
    }
    var best := job.views[s.t].chain;
    var again := true;
    if s.scanned == [] || LastOf(s.scanned) == LastOf(best) {
      again := false;
    }
    var next := Ask(s, AskTip(LastOf(s.scanned)));
    c := if again then Ranging(next) else Done(next.(registered := true));
  }

  /** scanBlockChunks */
  method ScanBlockChunks(job: Job) returns (s: Scan)
    ensures s == Rescanned(job)
  {
    s := Scan(Finished, job.start, [], job.unspent, false, false, 0, 0, []);
    while s.minBlock < job.maxBlock
      invariant Finish(job, Ranging(s)) == Rescanned(job)
      decreases ViewsLeft(job, Ranging(s))
    {
      if s.t >= |job.views| {
        s := s.(r := Running);
        return;
      }
      var maxLoopBlock := job.maxBlock;
      if maxLoopBlock - s.minBlock > job.chunk {
        maxLoopBlock := s.minBlock + job.chunk;
      }
      var hashList := HeightRange(job.views[s.t], s.minBlock, maxLoopBlock);
      var next := Ask(s, AskRange(s.minBlock, maxLoopBlock));
      var done := false;
      if hashList == [] {
        var c := RegisterOrWait(job, next);
        assert c == Turn(job, Ranging(s));
        s, done := c.s, c.Done?;
      } else {
        assert Listing(next, hashList, 0) == Turn(job, Ranging(s));
        s, done := ScanHashes(job, next, hashList);
      }
      if done {
        return;
      }
    }
  }

  // ---------- Chains that stay ----------

  /** The chain does not change. */
  ghost predicate Steady(views: seq<View>) {
    forall j :: 0 <= j < |views| ==> views[j].chain == views[0].chain
  }

  /** On a chain that does not change, the blocks scanned are the chain's own. */
  lemma ScannedFromChain(job: Job, s: Scan)
    requires AllGood(job.w, job.views) && Sound(job, s) && Steady(job.views) && job.views != []
    ensures var c := job.views[0].chain;
      forall k :: 0 <= k < |s.scanned| ==> job.start + k < |c| && s.scanned[k] == c[job.start + k]
  {
    forall k | 0 <= k < |s.scanned|
      ensures job.start + k < |job.views[0].chain| && s.scanned[k] == job.views[0].chain[job.start + k]
    {
      var j :| 0 <= j < s.t && j < |job.views| && s.scanned[k] in job.views[j].chain;
      OnChain(job.w, job.views[0], s.scanned[k]);
    }
  }

  /** On a chain that does not change, a rescan that finishes has scanned the blocks of the range asked for,
      as far as the chain goes, however small the chunks they were fetched in. */
  lemma SteadyScan(job: Job)
    requires AllGood(job.w, job.views) && job.chunk > 0 && Steady(job.views) && job.views != []
    requires Rescanned(job).r.Finished?
    ensures Rescanned(job).scanned == HeightRange(job.views[0], job.start, job.maxBlock)
  {
    var s := Rescanned(job);
    RescanIsSound(job);
    ScannedFromChain(job, s);
    if s.scanned != [] {
      var last := |s.scanned| - 1;
      assert s.scanned[last] == job.views[0].chain[job.start + last];
    }
  }

  /** Nothing goes wrong: the chain does not change, every block is on file and the client stays. */
  ghost predicate Quiet(job: Job) {
    && AllGood(job.w, job.views) && job.chunk > 0 && job.views != [] && Steady(job.views)
    && forall j :: 0 <= j < |job.views| ==> job.views[j].lookup.Here? && !job.views[j].quit
  }

  /** The blocks asked for. */
  function Wanted(job: Job): seq<Hash>
    requires job.views != []
  {
    HeightRange(job.views[0], job.start, job.maxBlock)
  }

  /** The rescan reaches a chain's end before its last height, and is open: it registers its client. */
  predicate Registers(job: Job)
    requires job.views != []
  {
    job.maxBlock == MAX_INT32 && job.start < job.maxBlock && |job.views[0].chain| < job.maxBlock
  }

  /** Enough views are left: one for each block of the list under way, two for each block beyond it, one that
      finds no more blocks and one that finds the tip. */
  ghost predicate OnTime(job: Job, c: Cursor)
    requires job.views != []
  {
    var left := |job.views| - c.s.t;
    var want := |Wanted(job)| - |c.s.scanned|;
    match c
    case Ranging(s) => left >= 2 * want + 2
    case Listing(s, hashList, i) =>
      && (forall k :: 0 <= k < |hashList| ==> hashList[k] in job.views[0].chain)
      && left >= 2 * want - (|hashList| - i) + 2
    case Done(s) => s.r.Finished? && (s.registered <==> Registers(job))
  }

  lemma ListedIsWanted(job: Job, s: Scan, hashList: seq<Hash>, i: nat)
    requires Quiet(job) && Sound(job, s) && OnList(job, s, hashList, i)
    requires forall k :: 0 <= k < |hashList| ==> hashList[k] in job.views[0].chain
    ensures |s.scanned| + (|hashList| - i) <= |Wanted(job)|
  {
    OnChain(job.w, job.views[0], hashList[|hashList| - 1]);
  }

  lemma ScannedIsWanted(job: Job, s: Scan)
    requires Quiet(job) && Sound(job, s)
    ensures |s.scanned| <= |Wanted(job)|
    ensures s.scanned != [] ==> job.start + |s.scanned| <= |job.views[0].chain|
    ensures s.scanned != [] ==> s.scanned[|s.scanned| - 1] == job.views[0].chain[job.start + |s.scanned| - 1]
  {
    ScannedFromChain(job, s);
    if s.scanned != [] {
      var last := |s.scanned| - 1;
      assert s.scanned[last] == job.views[0].chain[job.start + last];
    }
  }

  lemma AtEndOnTime(job: Job, s: Scan)
    requires Quiet(job) && Sound(job, s) && UnderWay(s) && s.minBlock == job.start + |s.scanned| < job.maxBlock
    requires s.t < |job.views| && |job.views[0].chain| <= s.minBlock
    ensures OnTime(job, AtEnd(job, s))
  {
    ScannedIsWanted(job, s);
    assert job.views[s.t].chain == job.views[0].chain;
  }

  lemma FetchOnTime(job: Job, s: Scan)
    requires Quiet(job) && Inv(job, Ranging(s)) && OnTime(job, Ranging(s))
    ensures OnTime(job, Fetch(job, s))
  {
    ScannedIsWanted(job, s);
    if s.minBlock < job.maxBlock {
      var end := RangeEnd(job, s.minBlock);
      var v, next := job.views[s.t], Ask(s, AskRange(s.minBlock, end));
      assert v.chain == job.views[0].chain;
      RangeIsPath(job.w, v, s.minBlock, end);
      SoundElsewhere(job, s, next);
      if HeightRange(v, s.minBlock, end) == [] {
        AtEndOnTime(job, next);
      } else {
        ListStarts(job, next, v, end);
        ListedIsWanted(job, next, HeightRange(v, s.minBlock, end), 0);
      }
    }
  }

  lemma WalkOnTime(job: Job, s: Scan, hashList: seq<Hash>, i: nat)
    requires Quiet(job) && Inv(job, Listing(s, hashList, i)) && OnTime(job, Listing(s, hashList, i))
    ensures OnTime(job, Walk(job, s, hashList, i))
  {
    ListedIsWanted(job, s, hashList, i);
    if i < |hashList| {
      assert job.views[s.t].chain == job.views[0].chain;
      if i == 0 && s.scanned != [] {
        ScannedIsWanted(job, s);
        OnChain(job.w, job.views[0], hashList[0]);
      }
    }
  }

  lemma TurnOnTime(job: Job, c: Cursor)
    requires Quiet(job) && Inv(job, c) && OnTime(job, c)
    ensures OnTime(job, Turn(job, c))
  {
    match c
    case Ranging(s) => FetchOnTime(job, s);
    case Listing(s, hashList, i) => WalkOnTime(job, s, hashList, i);
    case Done(s) =>
  }

  lemma FinishOnTime(job: Job, c: Cursor)
    requires Quiet(job) && Inv(job, c) && OnTime(job, c)
    ensures OnTime(job, Done(Finish(job, c)))
  {
    forall d: Cursor | Inv(job, d) && OnTime(job, d) ensures Inv(job, Turn(job, d)) && OnTime(job, Turn(job, d)) {
      TurnKeepsInv(job, d);
      TurnOnTime(job, d);
    }
    FinishHolds(job, c, d => Inv(job, d) && OnTime(job, d));
  }

  /** When nothing goes wrong, a rescan comes to its end within two answers for each block asked for and two
      more.  It has then scanned just those blocks, and registered its client if and only if it is open and
      the chain ends before its last height. */
  lemma QuietRescanFinishes(job: Job)
    requires Quiet(job) && |job.views| >= 2 * |Wanted(job)| + 2
    ensures var s := Rescanned(job);
      s.r.Finished? && s.scanned == Wanted(job) && (s.registered <==> Registers(job))
  {
    assert Path(job.w, [], job.start) && Fetched(job.views, 0, []);
    FinishOnTime(job, Init(job));
    SteadyScan(job);
  }

  /** The blocks of a path connected one after the other, seen live. */
  function LiveAll(w: World, ps: Spends, addrs: Addresses, hs: seq<Hash>): Spends {
    if hs == [] then ps
    else BlockStep(LiveAll(w, ps, addrs, hs[..|hs| - 1]), addrs, w.txs(hs[|hs| - 1]))
  }

  /** The transactions of a path, block after block. */
  function AllTxs(w: World, hs: seq<Hash>): seq<Tx> {
    if hs == [] then [] else AllTxs(w, hs[..|hs| - 1]) + w.txs(hs[|hs| - 1])
  }

  lemma {:induction false} ScanBlockOfTwo(u: set<OutPoint>, addrs: set<string>, xs: seq<Tx>, ys: seq<Tx>)
    ensures ScanBlock(u, addrs, xs + ys) == ScanBlock(ScanBlock(u, addrs, xs), addrs, ys)
    decreases |ys|
  {
    if ys == [] {
      assert xs + ys == xs;
    } else {
      var n := |ys| - 1;
      ScanBlockOfTwo(u, addrs, xs, ys[..n]);
      assert (xs + ys)[..|xs| + n] == xs + ys[..n];
    }
  }

  lemma {:induction false} BlockStepOfTwo(ps: Spends, addrs: Addresses, xs: seq<Tx>, ys: seq<Tx>)
    ensures BlockStep(ps, addrs, xs + ys) == BlockStep(BlockStep(ps, addrs, xs), addrs, ys)
    decreases |ys|
  {
    if ys == [] {
      assert xs + ys == xs;
    } else {
      var n := |ys| - 1;
      BlockStepOfTwo(ps, addrs, xs, ys[..n]);
      assert (xs + ys)[..|xs| + n] == xs + ys[..n];
    }
  }

  lemma {:induction false} PathIsOneBlock(w: World, u: set<OutPoint>, mine: set<string>, ps: Spends, addrs: Addresses,
      hs: seq<Hash>)
    ensures ScanAll(w, u, mine, hs) == ScanBlock(u, mine, AllTxs(w, hs))
    ensures LiveAll(w, ps, addrs, hs) == BlockStep(ps, addrs, AllTxs(w, hs))
    decreases |hs|
  {
    if hs == [] {
    } else {
      var n := |hs| - 1;
      PathIsOneBlock(w, u, mine, ps, addrs, hs[..n]);
      ScanBlockOfTwo(u, mine, AllTxs(w, hs[..n]), w.txs(hs[n]));
      BlockStepOfTwo(ps, addrs, AllTxs(w, hs[..n]), w.txs(hs[n]));
    }
  }

  /** The outpoints a rescan registers when it has caught up are those its client would be watching had it
      been registered, with the same addresses and outpoints, before the first block scanned, if and only
      if the rendering of addresses makes no difference at any outpoint of the path. */
  lemma CatchingUpMatchesIff(w: World, ps: Spends, addrs: Addresses, hs: seq<Hash>, c: Client)
    ensures ScanAll(w, Mine(ps, c), Mine(addrs, c), hs) == Mine(LiveAll(w, ps, addrs, hs), c) <==>
      forall op :: Indifferent(Mine(ps, c), Mine(addrs, c), AllTxs(w, hs), op)
  {
    PathIsOneBlock(w, Mine(ps, c), Mine(addrs, c), ps, addrs, hs);
    RescanMatchesIff(ps, addrs, AllTxs(w, hs), c);
  }
}
