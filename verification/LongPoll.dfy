/**
 Long polling for block templates: who waits on which channel, and which channels a new tip or a fresher
 memory pool closes.  A channel is closed at most once, and exactly when its template has become stale.
 */
module LongPoll {
  import opened Common

  type Hash = string
  type Channel = nat

  const GBT_REGENERATE_SECONDS: int := 60
  const NANOS: int := 1_000_000_000

  /** The waiting channels by previous hash and time of the template; which channels are closed; and the
      channel to be made next. */
  datatype Polls = Polls(notifyMap: map<Hash, map<int, Channel>>, closed: set<Channel>, next: Channel)

  const START := Polls(map[], {}, 0)

  predicate Waits(s: Polls, h: Hash, g: int) {
    h in s.notifyMap && g in s.notifyMap[h]
  }

  function On(s: Polls, h: Hash, g: int): Channel
    requires Waits(s, h, g)
  {
    s.notifyMap[h][g]
  }

  /** Channels waited on are open, one for each template; no list is empty. */
  ghost predicate Inv(s: Polls) {
    && (forall h, g :: Waits(s, h, g) ==> On(s, h, g) < s.next && On(s, h, g) !in s.closed)
    && (forall h, g, k, f :: Waits(s, h, g) && Waits(s, k, f) && On(s, h, g) == On(s, k, f) ==> h == k && g == f)
    && (forall h :: h in s.notifyMap ==> s.notifyMap[h] != map[])
    && (forall c :: c in s.closed ==> c < s.next)
  }

  // ---------- Registering ----------

  function Listed(s: Polls, h: Hash): map<int, Channel> {
    if h in s.notifyMap then s.notifyMap[h] else map[]
  }

  function Register(s: Polls, h: Hash, g: int): Polls {
    if Waits(s, h, g) then s
    else s.(notifyMap := s.notifyMap[h := Listed(s, h)[g := s.next]], next := s.next + 1)
  }

  /** The channel handed out: the one others already wait on, or a new one. */
  lemma RegisterWaits(s: Polls, h: Hash, g: int)
    requires Inv(s)
    ensures Waits(Register(s, h, g), h, g)
    ensures On(Register(s, h, g), h, g) == if Waits(s, h, g) then On(s, h, g) else s.next
    ensures forall k, f :: (k != h || f != g) ==> (Waits(Register(s, h, g), k, f) <==> Waits(s, k, f))
    ensures forall k, f :: Waits(s, k, f) ==>
      Waits(Register(s, h, g), k, f) && On(Register(s, h, g), k, f) == On(s, k, f)
  {
  }

  lemma RegisterKeepsInv(s: Polls, h: Hash, g: int)
    requires Inv(s)
    ensures Inv(Register(s, h, g))
  {
    RegisterWaits(s, h, g);
  }

  // ---------- Notifying ----------

  /** The template's block is no longer the tip, or a newer template exists. */
  predicate Stale(latest: Hash, lastGenerated: Option<int>, h: Hash, g: int) {
    h != latest || (lastGenerated.Some? && g < lastGenerated.value)
  }

  function Fresh(s: Polls, latest: Hash, lastGenerated: Option<int>): map<int, Channel> {
    map g | g in Listed(s, latest) && !Stale(latest, lastGenerated, latest, g) :: Listed(s, latest)[g]
  }

  function StaleChannels(s: Polls, latest: Hash, lastGenerated: Option<int>): set<Channel> {
    set h, g | h in s.notifyMap && g in s.notifyMap[h] && Stale(latest, lastGenerated, h, g) :: s.notifyMap[h][g]
  }

  function Notify(s: Polls, latest: Hash, lastGenerated: Option<int>): Polls {
    var kept := Fresh(s, latest, lastGenerated);
    s.(notifyMap := if kept == map[] then map[] else map[latest := kept],
       closed := s.closed + StaleChannels(s, latest, lastGenerated))
  }

  /** Exactly the stale waits end, and those that are left keep their channels. */
  lemma NotifyWaits(s: Polls, latest: Hash, lastGenerated: Option<int>, h: Hash, g: int)
    ensures var t := Notify(s, latest, lastGenerated);
      && (Waits(t, h, g) <==>
          Waits(s, h, g) && h == latest && (lastGenerated.None? || lastGenerated.value <= g))
      && (Waits(t, h, g) ==> On(t, h, g) == On(s, h, g))
  {
    var kept := Fresh(s, latest, lastGenerated);
    if Waits(s, h, g) && !Stale(latest, lastGenerated, h, g) {
      assert g in kept;
    }
  }

  /** A channel waited on is closed exactly when its template is stale. */
  lemma ClosesExactlyStale(s: Polls, latest: Hash, lastGenerated: Option<int>, h: Hash, g: int)
    requires Inv(s) && Waits(s, h, g)
    ensures On(s, h, g) in Notify(s, latest, lastGenerated).closed <==>
      h != latest || (lastGenerated.Some? && g < lastGenerated.value)
  {
    var c := On(s, h, g);
    if c in StaleChannels(s, latest, lastGenerated) {
      var k, f :|
        k in s.notifyMap && f in s.notifyMap[k] && Stale(latest, lastGenerated, k, f) && s.notifyMap[k][f] == c;
      assert Waits(s, k, f) && On(s, k, f) == c;
    }
  }

  lemma NotifyKeepsInv(s: Polls, latest: Hash, lastGenerated: Option<int>)
    requires Inv(s)
    ensures Inv(Notify(s, latest, lastGenerated))
    ensures StaleChannels(s, latest, lastGenerated) !! s.closed
  {
    var t := Notify(s, latest, lastGenerated);
    forall c | c in StaleChannels(s, latest, lastGenerated) ensures c < s.next && c !in s.closed {
      var h, g :|
        h in s.notifyMap && g in s.notifyMap[h] && Stale(latest, lastGenerated, h, g) && s.notifyMap[h][g] == c;
      assert Waits(s, h, g) && On(s, h, g) == c;
    }
    forall h, g | Waits(t, h, g)
      ensures Waits(s, h, g) && On(t, h, g) == On(s, h, g) && On(t, h, g) < t.next && On(t, h, g) !in t.closed
    {
      NotifyWaits(s, latest, lastGenerated, h, g);
      ClosesExactlyStale(s, latest, lastGenerated, h, g);
    }
  }

  // ---------- Runs ----------

  datatype Op = Registering(hash: Hash, generated: int) | Notifying(latest: Hash, lastGenerated: Option<int>)

  function Step(s: Polls, op: Op): Polls {
    match op
    case Registering(h, g) => Register(s, h, g)
    case Notifying(latest, last) => Notify(s, latest, last)
  }

  function After(ops: seq<Op>): Polls {
    if ops == [] then START else Step(After(ops[..|ops| - 1]), ops[|ops| - 1])
  }

  lemma {:induction false} AlwaysInv(ops: seq<Op>)
    ensures Inv(After(ops))
    decreases |ops|
  {
    if ops == [] {
    } else {
      var s, op := After(ops[..|ops| - 1]), ops[|ops| - 1];
      AlwaysInv(ops[..|ops| - 1]);
      match op
      case Registering(h, g) => RegisterKeepsInv(s, h, g);
      case Notifying(latest, last) => NotifyKeepsInv(s, latest, last);
    }
  }

  /** A notification for another tip, or with a later time than the template's. */
  predicate MakesStale(op: Op, h: Hash, g: int) {
    op.Notifying? && (op.latest != h || (op.lastGenerated.Some? && g < op.lastGenerated.value))
  }

  /** One operation: a channel waited on for a template is closed exactly by making it stale, else kept. */
  lemma StepCloses(s: Polls, op: Op, h: Hash, g: int)
    requires Inv(s) && Waits(s, h, g)
    ensures On(s, h, g) in Step(s, op).closed <==> MakesStale(op, h, g)
    ensures !MakesStale(op, h, g) ==> Waits(Step(s, op), h, g) && On(Step(s, op), h, g) == On(s, h, g)
  {
    match op
    case Registering(k, f) => RegisterWaits(s, k, f);
    case Notifying(latest, last) =>
      ClosesExactlyStale(s, latest, last, h, g);
      NotifyWaits(s, latest, last, h, g);
  }

  lemma StaysClosed(s: Polls, op: Op)
    ensures s.closed <= Step(s, op).closed
  {
  }

  /** Some notification since the first `from` operations makes the template stale. */
  predicate GoneStale(ops: seq<Op>, from: nat, h: Hash, g: int) {
    exists j :: from <= j < |ops| && MakesStale(ops[j], h, g)
  }

  lemma GoneStaleSplit(ops: seq<Op>, from: nat, h: Hash, g: int)
    requires from < |ops|
    ensures var n := |ops| - 1;
      GoneStale(ops, from, h, g) <==> GoneStale(ops[..n], from, h, g) || MakesStale(ops[n], h, g)
  {
    var n := |ops| - 1;
    assert forall j :: 0 <= j < n ==> ops[..n][j] == ops[j];
  }

  /** In every run, the channel waited on for a template after the first `from` operations is closed by now
      exactly when a notification since then made the template stale; until then the same channel is
      handed out to everyone who asks. */
  lemma {:induction false} ClosedExactlyWhenStale(ops: seq<Op>, from: nat, h: Hash, g: int)
    requires from <= |ops| && Waits(After(ops[..from]), h, g)
    ensures On(After(ops[..from]), h, g) in After(ops).closed <==> GoneStale(ops, from, h, g)
    ensures !GoneStale(ops, from, h, g) ==>
      Waits(After(ops), h, g) && On(After(ops), h, g) == On(After(ops[..from]), h, g)
    decreases |ops|
  {
    if from == |ops| {
      AlwaysInv(ops);
      assert ops[..from] == ops;
    } else {
      var n := |ops| - 1;
      assert ops[..n][..from] == ops[..from];
      ClosedExactlyWhenStale(ops[..n], from, h, g);
      GoneStaleSplit(ops, from, h, g);
      AlwaysInv(ops[..n]);
      StaysClosed(After(ops[..n]), ops[n]);
      if !GoneStale(ops[..n], from, h, g) {
        StepCloses(After(ops[..n]), ops[n], h, g);
      }
    }
  }

  // ---------- The work state ----------

  /** The channels of the lists of some hashes. */
  function ChannelsOf(s: Polls, hs: set<Hash>): set<Channel> {
    set h, g | h in hs && h in s.notifyMap && g in s.notifyMap[h] :: s.notifyMap[h][g]
  }

  lemma WhoseChannel(s: Polls, hs: set<Hash>, c: Channel) returns (h: Hash, g: int)
    requires c in ChannelsOf(s, hs)
    ensures h in hs && Waits(s, h, g) && On(s, h, g) == c
  {
    h, g :| h in hs && h in s.notifyMap && g in s.notifyMap[h] && s.notifyMap[h][g] == c;
  }

  /** The channels of a list are open and all different. */
  ghost predicate OpenList(list: map<int, Channel>, closed: set<Channel>) {
    && (forall g :: g in list ==> list[g] !in closed)
    && (forall g, f :: g in list && f in list && list[g] == list[f] ==> g == f)
  }

  lemma ListIsOpen(s: Polls, hs: set<Hash>, h: Hash)
    requires Inv(s) && h in s.notifyMap && h !in hs
    ensures OpenList(s.notifyMap[h], s.closed + ChannelsOf(s, hs))
  {
    forall g | g in s.notifyMap[h] ensures s.notifyMap[h][g] !in s.closed + ChannelsOf(s, hs) {
      assert Waits(s, h, g) && On(s, h, g) == s.notifyMap[h][g];
      if On(s, h, g) in ChannelsOf(s, hs) {
        var k, f := WhoseChannel(s, hs, On(s, h, g));
      }
    }
    forall g, f | g in s.notifyMap[h] && f in s.notifyMap[h] && s.notifyMap[h][g] == s.notifyMap[h][f] ensures g == f {
      assert Waits(s, h, g) && Waits(s, h, f);
    }
  }

  lemma OneMoreList(s: Polls, hs: set<Hash>, h: Hash)
    requires h in s.notifyMap
    ensures ChannelsOf(s, hs + {h}) == ChannelsOf(s, hs) + set g | g in s.notifyMap[h] :: s.notifyMap[h][g]
  {
  }

  function Keep(s: Polls, hs: set<Hash>): map<Hash, map<int, Channel>> {
    map h | h in s.notifyMap && h in hs :: s.notifyMap[h]
  }

  /** Dropping all other hashes is a notification without a time. */
  lemma OthersDropped(s: Polls, latest: Hash)
    requires Inv(s)
    ensures Notify(s, latest, None) ==
      s.(notifyMap := Keep(s, {latest}), closed := s.closed + ChannelsOf(s, s.notifyMap.Keys - {latest}))
  {
    var kept := Fresh(s, latest, None);
    assert kept == Listed(s, latest);
    assert StaleChannels(s, latest, None) == ChannelsOf(s, s.notifyMap.Keys - {latest});
    assert (if kept == map[] then map[] else map[latest := kept]) == Keep(s, {latest});
  }

  /** The older templates of the tip, after all others have gone. */
  lemma ThenOlder(s: Polls, latest: Hash, g: int)
    requires Inv(s)
    ensures Notify(Notify(s, latest, None), latest, Some(g)) == Notify(s, latest, Some(g))
  {
    OthersDropped(s, latest);
    var t := Notify(s, latest, None);
    assert Listed(t, latest) == Listed(s, latest);
    assert Fresh(t, latest, Some(g)) == Fresh(s, latest, Some(g));
    SameStale(s, latest, g);
  }

  lemma SameStale(s: Polls, latest: Hash, g: int)
    requires Inv(s)
    ensures var t := Notify(s, latest, None);
      t.closed + StaleChannels(t, latest, Some(g)) == s.closed + StaleChannels(s, latest, Some(g))
  {
    var t := Notify(s, latest, None);
    OthersDropped(s, latest);
    forall c | c in StaleChannels(s, latest, Some(g)) ensures c in t.closed + StaleChannels(t, latest, Some(g)) {
      var h, f :| h in s.notifyMap && f in s.notifyMap[h] && Stale(latest, Some(g), h, f) && s.notifyMap[h][f] == c;
      if h == latest {
        assert t.notifyMap[h] == s.notifyMap[h];
      } else {
        assert c in StaleChannels(s, latest, None);
      }
    }
    forall c | c in StaleChannels(t, latest, Some(g)) ensures c in StaleChannels(s, latest, Some(g)) {
      var h, f :| h in t.notifyMap && f in t.notifyMap[h] && Stale(latest, Some(g), h, f) && t.notifyMap[h][f] == c;
      assert s.notifyMap[h] == t.notifyMap[h];
    }
    forall c | c in StaleChannels(s, latest, None) ensures c in StaleChannels(s, latest, Some(g)) {
      var h, f :| h in s.notifyMap && f in s.notifyMap[h] && Stale(latest, None, h, f) && s.notifyMap[h][f] == c;
      assert Stale(latest, Some(g), h, f);
    }
  }

  function Older(list: map<int, Channel>, g: int): set<int> {
    set f | f in list && f < g
  }

  /** With only the tip's list left, a notification drops its older channels. */
  lemma OlderDropped(s: Polls, latest: Hash, g: int)
    requires s.notifyMap.Keys == {latest}
    ensures var list := s.notifyMap[latest]; var rest := list - Older(list, g);
      Notify(s, latest, Some(g)) ==
      s.(notifyMap := if rest == map[] then map[] else map[latest := rest],
         closed := s.closed + set f | f in Older(list, g) :: list[f])
  {
    var list := s.notifyMap[latest];
    assert Fresh(s, latest, Some(g)) == list - Older(list, g);
    assert StaleChannels(s, latest, Some(g)) == set f | f in Older(list, g) :: list[f];
  }

  lemma NothingOlder(s: Polls, latest: Hash, g: int)
    requires s.notifyMap.Keys == {}
    ensures Notify(s, latest, Some(g)) == s
  {
    assert s.notifyMap == map[];
    assert Fresh(s, latest, Some(g)) == map[];
  }

  /** Whole seconds of a time in nanoseconds. */
  function Unix(t: int): int {
    t / NANOS
  }

  function Seconds(t: Option<int>): Option<int> {
    match t
    case Some(n) => Some(Unix(n))
    case None => None
  }

  /** The waiting channels, updated in place under the state's lock.  Times are in nanoseconds and absent
      when zero. */
  class GbtWorkState {
    var notifyMap: map<Hash, map<int, Channel>>
    var prevHash: Option<Hash>
    var lastGenerated: Option<int>
    var lastTxUpdate: Option<int>
    /** Which channels have been closed, and how many have been made. */
    var closed: set<Channel>
    var made: nat

    function View(): Polls
      reads this
    {
      Polls(notifyMap, closed, made)
    }

    constructor ()
      ensures View() == START && Inv(View())
    {
      notifyMap, prevHash, lastGenerated, lastTxUpdate, closed, made := map[], None, None, None, {}, 0;
    }

    /** Closing a channel; closing it again would panic. */
    method Close(c: Channel)
      requires c !in closed
      modifies this`closed
      ensures closed == old(closed) + {c}
    {
      closed := closed + {c};
    }

    /** templateUpdateChan */
    method TemplateUpdateChan(h: Hash, g: int) returns (c: Channel)
      requires Inv(View())
      modifies this`notifyMap, this`made
      ensures View() == Register(old(View()), h, g) && Inv(View())
      ensures Waits(View(), h, g) && c == On(View(), h, g)
      ensures old(Waits(View(), h, g)) ==> c == old(On(View(), h, g))
    {
      RegisterWaits(View(), h, g);
      RegisterKeepsInv(View(), h, g);
      if h !in notifyMap {
        notifyMap := notifyMap[h := map[]];
      }
      var channels := notifyMap[h];
      if g !in channels {
        channels := channels[g := made];
        made := made + 1;
        notifyMap := notifyMap[h := channels];
      }
      c := channels[g];
    }

    /** Every channel of a list is closed. */
    method CloseAll(channels: map<int, Channel>, todo: set<int>)
      requires todo <= channels.Keys && OpenList(channels, closed)
      modifies this`closed
      ensures closed == old(closed) + set g | g in todo :: channels[g]
    {
      var left := todo;
      while left != {}
        invariant left <= todo
        invariant closed == old(closed) + set g | g in todo - left :: channels[g]
        decreases left
      {
        var g := Next(left);
        Close(channels[g]);
        assert todo - (left - {g}) == (todo - left) + {g};
        left := left - {g};
      }
      assert todo - left == todo;
    }

    /** The first loop of notifyLongPollers: every list for another hash is closed and dropped. */
    method DropOthers(latest: Hash)
      requires Inv(View())
      modifies this`notifyMap, this`closed
      ensures View() == Notify(old(View()), latest, None)
    {
      ghost var s := View();
      var todo := notifyMap.Keys - {latest};
      ghost var done: set<Hash> := {};
      while todo != {}
        invariant done + todo == s.notifyMap.Keys - {latest} && done !! todo && made == s.next
        invariant notifyMap == Keep(s, todo + {latest})
        invariant closed == s.closed + ChannelsOf(s, done)
        decreases todo
      {
        var h := Next(todo);
        ListIsOpen(s, done, h);
        OneMoreList(s, done, h);
        CloseAll(notifyMap[h], notifyMap[h].Keys);
        notifyMap := notifyMap - {h};
        todo, done := todo - {h}, done + {h};
      }
      assert done == s.notifyMap.Keys - {latest} && todo + {latest} == {latest};
      OthersDropped(s, latest);
    }

    /** The second loop: the older templates of the tip, whose list is the only one left. */
    method DropOlder(latest: Hash, g: int)
      requires notifyMap.Keys == {latest} && OpenList(notifyMap[latest], closed)
      modifies this`notifyMap, this`closed
      ensures View() == Notify(old(View()), latest, Some(g))
    {
      OlderDropped(View(), latest, g);
      var channels := notifyMap[latest];
      var older := Older(channels, g);
      CloseAll(channels, older);
      PutList(latest, channels - older);
    }

    /** The only list becomes shorter, and goes altogether once it is empty. */
    method PutList(latest: Hash, channels: map<int, Channel>)
      requires notifyMap.Keys == {latest}
      modifies this`notifyMap
      ensures notifyMap == if channels == map[] then map[] else map[latest := channels]
    {
      notifyMap := notifyMap[latest := channels];
      if |channels| == 0 {
        notifyMap := notifyMap - {latest};
      }
    }

    /** notifyLongPollers */
    method NotifyLongPollers(latest: Hash, lastGen: Option<int>)
      requires Inv(View())
      modifies this`notifyMap, this`closed
      ensures View() == Notify(old(View()), latest, Seconds(lastGen)) && Inv(View())
    {
      ghost var s := View();
      NotifyKeepsInv(s, latest, None);
      NotifyKeepsInv(s, latest, Seconds(lastGen));
      DropOthers(latest);
      if lastGen.None? {
        return;
      }
      var lastGeneratedUnix := Unix(lastGen.value);
      ThenOlder(s, latest, lastGeneratedUnix);
      OthersDropped(s, latest);
      if latest !in notifyMap {
        assert notifyMap.Keys == {};
        NothingOlder(View(), latest, lastGeneratedUnix);
        return;
      }
      assert notifyMap.Keys == {latest};
      ListIsOpen(View(), {}, latest);
      DropOlder(latest, lastGeneratedUnix);
    }

    /** NotifyBlockConnected, once it holds the lock. */
    method NotifyBlockConnected(blockHash: Hash)
      requires Inv(View())
      modifies this`notifyMap, this`closed
      ensures View() == Notify(old(View()), blockHash, Seconds(lastTxUpdate)) && Inv(View())
    {
      NotifyLongPollers(blockHash, lastTxUpdate);
    }

    /** NotifyMempoolTx, once it holds the lock: nothing happens before there is a template, or while the
        latest one is not a minute old. */
    method NotifyMempoolTx(lastUpdated: Option<int>, now: int)
      requires Inv(View())
      modifies this`notifyMap, this`closed
      ensures Inv(View())
      ensures View() ==
        if prevHash.Some? && lastGenerated.Some? && now > lastGenerated.value + GBT_REGENERATE_SECONDS * NANOS
        then Notify(old(View()), prevHash.value, Seconds(lastUpdated)) else old(View())
    {
      if prevHash.None? || lastGenerated.None? {
        return;
      }
      if now > lastGenerated.value + GBT_REGENERATE_SECONDS * NANOS {
        NotifyLongPollers(prevHash.value, lastUpdated);
      }
    }
  }
}
