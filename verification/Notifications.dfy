/**
 The notification handler's two-way indexes of websocket requests, updated in place: who watches an
 outpoint or an address, and what each client watches.  Each message is proved to change the watched
 pairs as `Watching` says.
 */
module Notifications {
  import opened Common
  import opened Watching

  /** A two-way index: the clients to notify for a key, and the keys each client asked for. */
  class Watch<K(==, !new)> {
    var lists: map<K, set<Client>>
    var requests: map<Client, set<K>>

    predicate Listed(c: Client, k: K)
      reads this
    {
      k in lists && c in lists[k]
    }

    predicate Requested(c: Client, k: K)
      reads this
    {
      c in requests && k in requests[c]
    }

    /** The two directions agree, and no list is empty. */
    ghost predicate Valid()
      reads this
    {
      && (forall c, k :: Listed(c, k) <==> Requested(c, k))
      && (forall k :: k in lists ==> lists[k] != {})
    }

    ghost function Pairs(): (ps: set<(Client, K)>)
      reads this
      ensures forall c, k :: (c, k) in ps <==> Listed(c, k)
    {
      set k, c | k in lists && c in lists[k] :: (c, k)
    }

    constructor ()
      ensures Valid() && Pairs() == {}
    {
      lists, requests := map[], map[];
    }

    /** One pass of the loop of addSpentRequests or addAddrRequests. */
    method Add(c: Client, k: K)
      requires Valid()
      modifies this
      ensures Valid() && Pairs() == old(Pairs()) + {(c, k)}
    {
      requests := requests[c := (if c in requests then requests[c] else {}) + {k}];
      if k !in lists {
        lists := lists[k := {}];
      }
      lists := lists[k := lists[k] + {c}];
      assert forall d, l :: Listed(d, l) <==> old(Listed(d, l)) || (d == c && l == k);
      assert forall d, l :: Requested(d, l) <==> old(Requested(d, l)) || (d == c && l == k);
    }

    /** removeSpentRequest, removeAddrRequest */
    method Remove(c: Client, k: K)
      requires Valid()
      modifies this
      ensures Valid() && Pairs() == old(Pairs()) - {(c, k)}
    {
      if c in requests {
        requests := requests[c := requests[c] - {k}];
      }
      if k in lists {
        lists := lists[k := lists[k] - {c}];
        assert forall d :: d in old(lists[k]) ==> d in lists[k] || d == c;
        if lists[k] == {} {
          lists := lists - {k};
        }
      }
      assert forall d, l :: Listed(d, l) <==> old(Listed(d, l)) && (d != c || l != k);
      assert forall d, l :: Requested(d, l) <==> old(Requested(d, l)) && (d != c || l != k);
    }

    /** Addresses or outpoints registered together. */
    method AddAll(c: Client, ks: seq<K>)
      requires Valid()
      modifies this
      ensures Valid() && Pairs() == old(Pairs()) + With(c, ks)
    {
      var i := 0;
      while i < |ks|
        invariant i <= |ks| && Valid()
        invariant forall d, k :: (d, k) in Pairs() <==> (d, k) in old(Pairs()) || (d == c && k in ks[..i])
      {
        assert ks[..i + 1] == ks[..i] + [ks[i]];
        Add(c, ks[i]);
        i := i + 1;
      }
      assert ks[..i] == ks;
      forall d, k ensures (d, k) in Pairs() <==> (d, k) in old(Pairs()) + With(c, ks) {
        if d == c && k in ks {
          var j :| 0 <= j < |ks| && ks[j] == k;
          assert (c, ks[j]) in With(c, ks);
        }
      }
    }

    /** A client leaves: every one of its requests is removed. */
    method RemoveClient(c: Client)
      requires Valid()
      modifies this
      ensures Valid() && (forall k :: !Requested(c, k) && !Listed(c, k))
      ensures Pairs() == Without(old(Pairs()), c)
    {
      var todo: set<K> := if c in requests then requests[c] else {};
      while todo != {}
        invariant Valid()
        invariant forall k :: Requested(c, k) <==> k in todo
        invariant forall d, k :: d != c ==> ((d, k) in Pairs() <==> (d, k) in old(Pairs()))
        decreases todo
      {
        var k := Next(todo);
        Remove(c, k);
        todo := todo - {k};
      }
    }

    /** Nobody is watching. */
    method IsEmpty() returns (b: bool)
      requires Valid()
      ensures b <==> Pairs() == {}
    {
      b := |lists| == 0;
      if !b {
        var k := Next(lists.Keys);
        var c := Next(lists[k]);
        assert (c, k) in Pairs();
      }
    }

    /** The clients to notify for a key. */
    method Clients(k: K) returns (cs: set<Client>)
      requires Valid()
      ensures cs == WatchersOf(Pairs(), k)
    {
      cs := if k in lists then lists[k] else {};
      assert forall c :: Listed(c, k) <==> c in cs;
    }
  }

  /** What a client is told about a transaction. */
  datatype Event = Redeeming(tx: int, inBlock: bool) | Receiving(tx: int, inBlock: bool)

  datatype Notice = Notice(to: Client, event: Event)

  /** The notices that tell the clients of an event. */
  function Tell(told: seq<Client>, e: Event): seq<Notice> {
    seq(|told|, i requires 0 <= i < |told| => Notice(told[i], e))
  }

  /** Exactly the clients due are told, each once. */
  ghost predicate Once(told: seq<Client>, due: set<Client>) {
    && (forall i, j :: 0 <= i < j < |told| ==> told[i] != told[j])
    && (forall c :: c in told <==> c in due)
  }

  function Marked(told: seq<Client>, c: Client): seq<Client> {
    if c in told then told else told + [c]
  }

  lemma MarkedOnce(told: seq<Client>, due: set<Client>, c: Client)
    requires Once(told, due)
    ensures Once(Marked(told, c), due + {c})
  {
  }

  lemma TellMarked(log: seq<Notice>, told: seq<Client>, c: Client, e: Event)
    ensures log + Tell(Marked(told, c), e) == log + Tell(told, e) + if c in told then [] else [Notice(c, e)]
  {
    if c !in told {
      assert Tell(told + [c], e) == Tell(told, e) + [Notice(c, e)];
    }
  }

  /** The log only gained news of mempool spends. */
  ghost predicate Grew(a: seq<Notice>, b: seq<Notice>) {
    && a <= b
    && forall i :: |a| <= i < |b| ==> b[i].event.Redeeming? && !b[i].event.inBlock
  }

  lemma GrewAgain(a: seq<Notice>, b: seq<Notice>, c: seq<Notice>)
    requires Grew(a, b) && Grew(b, c)
    ensures Grew(a, c)
  {
    assert forall i :: 0 <= i < |b| ==> c[i] == b[i];
  }

  /** A set walked through one element at a time. */
  lemma OneStep(due: set<Client>, done: set<Client>, todo: set<Client>, c: Client)
    requires c in todo
    ensures done + todo == (done + {c}) + (todo - {c}) && due + done + {c} == due + (done + {c})
  {
  }

  lemma WithOne<K>(c: Client, k: K)
    ensures With(c, [k]) == {(c, k)}
  {
    assert (c, [k][0]) in With(c, [k]);
  }

  /** The transaction with its first `i` inputs alone, and with its first `i` outputs alone. */
  function FirstIns(tx: Tx, i: nat): Tx
    requires i <= |tx.ins|
  {
    tx.(ins := tx.ins[..i])
  }

  function FirstOuts(tx: Tx, i: nat): Tx
    requires i <= |tx.outs|
  {
    tx.(outs := tx.outs[..i])
  }

  lemma OneMoreInput(tx: Tx, i: nat)
    requires i < |tx.ins|
    ensures forall op :: SpentBy(FirstIns(tx, i + 1), op) <==> SpentBy(FirstIns(tx, i), op) || tx.ins[i].prev == op
  {
    var less, more := FirstIns(tx, i), FirstIns(tx, i + 1);
    forall op ensures SpentBy(more, op) <==> SpentBy(less, op) || tx.ins[i].prev == op {
      assert more.ins[i] == tx.ins[i];
      assert forall j :: 0 <= j < i ==> less.ins[j] == more.ins[j];
    }
  }

  /** Clients that watch an outpoint the transaction spends. */
  function Redeemers(ps: Spends, tx: Tx): set<Client> {
    set p | p in ps && SpentBy(tx, p.1) :: p.0
  }

  /** The clients of one more input; those already told may have been taken off the list. */
  lemma MoreRedeemers(ps: Spends, tx: Tx, i: nat, inBlock: bool)
    requires i < |tx.ins|
    ensures var now := if inBlock then Unspent(ps, FirstIns(tx, i)) else ps;
      Redeemers(ps, FirstIns(tx, i + 1)) == Redeemers(ps, FirstIns(tx, i)) + WatchersOf(now, tx.ins[i].prev)
  {
    OneMoreInput(tx, i);
    var op := tx.ins[i].prev;
    var now := if inBlock then Unspent(ps, FirstIns(tx, i)) else ps;
    var less, more := Redeemers(ps, FirstIns(tx, i)), Redeemers(ps, FirstIns(tx, i + 1));
    forall c | c in more ensures c in less + WatchersOf(now, op) {
      var p :| p in ps && SpentBy(FirstIns(tx, i + 1), p.1) && p.0 == c;
      assert SpentBy(FirstIns(tx, i), p.1) || p in now;
    }
  }

  lemma FewerSpends(ps: Spends, tx: Tx, i: nat)
    requires i < |tx.ins|
    ensures WithoutKey(Unspent(ps, FirstIns(tx, i)), tx.ins[i].prev) == Unspent(ps, FirstIns(tx, i + 1))
  {
    OneMoreInput(tx, i);
  }

  /** Clients that watch one of the addresses, each paired with the outpoint that pays it. */
  function PaidOut(addrs: Addresses, addresses: seq<string>, op: OutPoint): Spends {
    set p | p in addrs && p.1 in addresses :: (p.0, op)
  }

  lemma OneMoreAddress(addrs: Addresses, addresses: seq<string>, op: OutPoint, j: nat)
    requires j < |addresses|
    ensures PaidOut(addrs, addresses[..j + 1], op) ==
      PaidOut(addrs, addresses[..j], op) + Each(WatchersOf(addrs, addresses[j]), op)
  {
    assert addresses[..j + 1] == addresses[..j] + [addresses[j]];
    var a := addresses[j];
    var less, more := PaidOut(addrs, addresses[..j], op), PaidOut(addrs, addresses[..j + 1], op);
    forall c | c in WatchersOf(addrs, a) ensures (c, op) in more {
      assert (c, a) in addrs && a in addresses[..j + 1];
      assert ((c, a).0, op) in more;
    }
    forall p | p in less ensures p in more {
      var q :| q in addrs && q.1 in addresses[..j] && p == (q.0, op);
      assert q.1 in addresses[..j + 1];
    }
    forall p | p in more ensures p in less + Each(WatchersOf(addrs, a), op) {
      var q :| q in addrs && q.1 in addresses[..j + 1] && p == (q.0, op);
      assert q == (q.0, q.1);
    }
  }

  lemma OneMoreOutput(addrs: Addresses, tx: Tx, i: nat)
    requires i < |tx.outs|
    ensures Paid(addrs, FirstOuts(tx, i + 1)) ==
      Paid(addrs, FirstOuts(tx, i)) + PaidOut(addrs, Encoded(tx.outs[i]), OutPoint(tx.hash, i))
  {
    var less, more := FirstOuts(tx, i), FirstOuts(tx, i + 1);
    var here := PaidOut(addrs, Encoded(tx.outs[i]), OutPoint(tx.hash, i));
    assert more.outs[i] == tx.outs[i];
    assert forall j :: 0 <= j < i ==> less.outs[j] == more.outs[j];
    forall c, op ensures (c, op) in Paid(addrs, more) <==> (c, op) in Paid(addrs, less) + here {
      InPaid(addrs, less, c, op);
      InPaid(addrs, more, c, op);
      InPaidOut(addrs, Encoded(tx.outs[i]), OutPoint(tx.hash, i), c);
    }
  }

  lemma InPaidOut(addrs: Addresses, addresses: seq<string>, op: OutPoint, c: Client)
    ensures (c, op) in PaidOut(addrs, addresses, op) <==> exists a :: a in addresses && (c, a) in addrs
  {
    if a :| a in addresses && (c, a) in addrs {
      assert ((c, a).0, op) in PaidOut(addrs, addresses, op);
    }
    if (c, op) in PaidOut(addrs, addresses, op) {
      var q :| q in addrs && q.1 in addresses && (c, op) == (q.0, op);
      assert q == (c, q.1);
    }
  }

  /** Clients that watch an address the transaction pays. */
  function Payees(addrs: Addresses, tx: Tx): set<Client> {
    Watchers(Paid(addrs, tx))
  }

  lemma NobodyIsTold(addrs: Addresses, tx: Tx)
    requires addrs == {}
    ensures Paid(addrs, tx) == {} && Payees(addrs, tx) == {} && forall e :: Tell([], e) == []
  {
  }

  lemma {:induction false} NobodyWatches(txs: seq<Tx>)
    ensures BlockStep({}, {}, txs) == {}
    decreases |txs|
  {
    if txs == [] {
    } else {
      NobodyWatches(txs[..|txs| - 1]);
      NobodyIsTold({}, txs[|txs| - 1]);
    }
  }

  /** Since the log had length `from`, every client that watches an input of a mempool transaction is told. */
  ghost predicate Reported(log: seq<Notice>, from: nat, ps: Spends, tx: Tx) {
    forall d :: d in Redeemers(ps, tx) ==>
      exists i :: from <= i < |log| && log[i] == Notice(d, Redeeming(tx.hash, false))
  }

  lemma ReportedLater(log: seq<Notice>, more: seq<Notice>, from: nat, ps: Spends, tx: Tx)
    requires Reported(log, from, ps, tx) && log <= more
    ensures Reported(more, from, ps, tx)
  {
    forall d | d in Redeemers(ps, tx)
      ensures exists i :: from <= i < |more| && more[i] == Notice(d, Redeeming(tx.hash, false))
    {
      var i :| from <= i < |log| && log[i] == Notice(d, Redeeming(tx.hash, false));
      assert more[i] == log[i];
    }
  }

  lemma ToldIsReported(log: seq<Notice>, told: seq<Client>, more: seq<Notice>, from: nat, ps: Spends, tx: Tx)
    requires Once(told, Redeemers(ps, tx)) && from <= |log|
    requires log + Tell(told, Redeeming(tx.hash, false)) <= more
    ensures Reported(more, from, ps, tx)
  {
    var e := Redeeming(tx.hash, false);
    forall d | d in Redeemers(ps, tx) ensures exists i :: from <= i < |more| && more[i] == Notice(d, e) {
      var j :| 0 <= j < |told| && told[j] == d;
      assert (log + Tell(told, e))[|log| + j] == Notice(d, e);
      assert more[|log| + j] == Notice(d, e);
    }
  }

  /** The notices of spends in blocks. */
  function Confirmed(log: seq<Notice>): seq<Notice> {
    if log == [] then []
    else
      var n := |log| - 1;
      Confirmed(log[..n]) + if log[n].event.Redeeming? && log[n].event.inBlock then [log[n]] else []
  }

  lemma {:induction false} ConfirmedGrew(a: seq<Notice>, b: seq<Notice>)
    requires Grew(a, b)
    ensures Confirmed(b) == Confirmed(a)
    decreases |b|
  {
    if |b| == |a| {
      assert a == b;
    } else {
      var n := |b| - 1;
      assert Grew(a, b[..n]);
      ConfirmedGrew(a, b[..n]);
    }
  }

  lemma ConfirmedOne(log: seq<Notice>, n: Notice)
    requires n.event.Redeeming? && n.event.inBlock
    ensures Confirmed(log + [n]) == Confirmed(log) + [n]
  {
    assert (log + [n])[..|log|] == log;
  }

  lemma TellSplit(told: seq<Client>, e: Event)
    requires told != []
    ensures Tell(told, e) == Tell(told[..|told| - 1], e) + [Notice(told[|told| - 1], e)]
  {
  }

  lemma {:induction false} ConfirmedTell(log: seq<Notice>, told: seq<Client>, tx: int)
    ensures Confirmed(log + Tell(told, Redeeming(tx, true))) == Confirmed(log) + Tell(told, Redeeming(tx, true))
    decreases |told|
  {
    var e := Redeeming(tx, true);
    if told == [] {
      assert log + Tell(told, e) == log;
      assert Confirmed(log) + Tell(told, e) == Confirmed(log);
    } else {
      var n := |told| - 1;
      var front, last := Tell(told[..n], e), Notice(told[n], e);
      ConfirmedTell(log, told[..n], tx);
      TellSplit(told, e);
      ConfirmedOne(log + front, last);
      assert log + (front + [last]) == log + front + [last];
    }
  }

  /** One notice of each transaction to each of its clients, transaction by transaction. */
  function Told(txs: seq<Tx>, told: seq<seq<Client>>, redeem: bool): seq<Notice>
    requires |told| <= |txs|
  {
    if told == [] then []
    else
      var n := |told| - 1;
      var e := if redeem then Redeeming(txs[n].hash, true) else Receiving(txs[n].hash, true);
      Told(txs, told[..n], redeem) + Tell(told[n], e)
  }

  /** Of one transaction of a block, exactly the clients that watch one of its inputs when its turn comes are
      told so, and exactly those that watch an address it pays, each once. */
  ghost predicate TxTold(ps: Spends, addrs: Addresses, txs: seq<Tx>, i: nat, redeemed: seq<Client>,
    received: seq<Client>)
    requires i < |txs|
  {
    Once(redeemed, Redeemers(BlockStep(ps, addrs, txs[..i]), txs[i])) && Once(received, Payees(addrs, txs[i]))
  }

  /** The same of the first transactions of a block, as many as there are lists. */
  ghost predicate BlockTold(ps: Spends, addrs: Addresses, txs: seq<Tx>, redeemed: seq<seq<Client>>,
    received: seq<seq<Client>>)
  {
    && |redeemed| == |received| <= |txs|
    && forall i :: 0 <= i < |redeemed| ==> TxTold(ps, addrs, txs, i, redeemed[i], received[i])
  }

  /** And the two logs have gained just those notices, besides spends in the memory pool. */
  ghost predicate Logged(txs: seq<Tx>, redeemed: seq<seq<Client>>, received: seq<seq<Client>>, spends: seq<Notice>,
    spends': seq<Notice>, receipts: seq<Notice>, receipts': seq<Notice>)
    requires |redeemed| <= |txs| && |received| <= |txs|
  {
    && Confirmed(spends') == Confirmed(spends) + Told(txs, redeemed, true)
    && receipts' == receipts + Told(txs, received, false)
  }

  /** The notices a message leads to, given who watched what before: of a block, transaction by transaction; of
      an accepted transaction; spends in the memory pool of outpoints newly watched; and otherwise none. */
  ghost predicate Notified(m: Message, s: State, redeemed: seq<seq<Client>>, received: seq<seq<Client>>,
    spends: seq<Notice>, spends': seq<Notice>, receipts: seq<Notice>, receipts': seq<Notice>)
  {
    match m
    case BlockConnected(txs) =>
      && |redeemed| == |txs| && BlockTold(s.spends, s.addrs, txs, redeemed, received)
      && Logged(txs, redeemed, received, spends, spends', receipts, receipts')
    case TxAccepted(tx) =>
      && |redeemed| == |received| == 1
      && Once(redeemed[0], Redeemers(s.spends, tx)) && Once(received[0], Payees(s.addrs, tx))
      && Grew(spends + Tell(redeemed[0], Redeeming(tx.hash, false)), spends')
      && receipts' == receipts + Tell(received[0], Receiving(tx.hash, false))
    case RegisterSpent(_, _) => Grew(spends, spends') && receipts' == receipts
    case _ => spends' == spends && receipts' == receipts
  }

  lemma BlockToldMore(ps: Spends, addrs: Addresses, txs: seq<Tx>, redeemed: seq<seq<Client>>,
      received: seq<seq<Client>>, more: seq<Client>, paid: seq<Client>)
    requires BlockTold(ps, addrs, txs, redeemed, received) && |redeemed| < |txs|
    requires TxTold(ps, addrs, txs, |redeemed|, more, paid)
    ensures BlockTold(ps, addrs, txs, redeemed + [more], received + [paid])
  {
    var redeemed', received' := redeemed + [more], received + [paid];
    forall i | 0 <= i < |redeemed'| ensures TxTold(ps, addrs, txs, i, redeemed'[i], received'[i]) {
      if i < |redeemed| {
        assert TxTold(ps, addrs, txs, i, redeemed[i], received[i]);
      }
    }
  }

  lemma ToldMore(txs: seq<Tx>, told: seq<seq<Client>>, redeem: bool, more: seq<Client>)
    requires |told| < |txs|
    ensures Told(txs, told + [more], redeem) == Told(txs, told, redeem) +
      Tell(more, if redeem then Redeeming(txs[|told|].hash, true) else Receiving(txs[|told|].hash, true))
  {
    assert (told + [more])[..|told|] == told;
  }

  lemma LoggedMore(txs: seq<Tx>, redeemed: seq<seq<Client>>, received: seq<seq<Client>>, more: seq<Client>,
      paid: seq<Client>, s0: seq<Notice>, s1: seq<Notice>, s2: seq<Notice>, r0: seq<Notice>, r1: seq<Notice>,
      r2: seq<Notice>)
    requires |redeemed| == |received| < |txs| && Logged(txs, redeemed, received, s0, s1, r0, r1)
    requires Grew(s1 + Tell(more, Redeeming(txs[|redeemed|].hash, true)), s2)
    requires r2 == r1 + Tell(paid, Receiving(txs[|redeemed|].hash, true))
    ensures Logged(txs, redeemed + [more], received + [paid], s0, s2, r0, r2)
  {
    var hash := txs[|redeemed|].hash;
    ConfirmedGrew(s1 + Tell(more, Redeeming(hash, true)), s2);
    ConfirmedTell(s1, more, hash);
    ToldMore(txs, redeemed, true, more);
    ToldMore(txs, received, false, paid);
  }

  /** Nobody is told of a block when nobody watches. */
  lemma {:induction false} NobodyTold(txs: seq<Tx>, n: nat) returns (none: seq<seq<Client>>)
    requires n <= |txs|
    ensures |none| == n && BlockTold({}, {}, txs, none, none)
    ensures Told(txs, none, true) == [] && Told(txs, none, false) == []
  {
    if n == 0 {
      none := [];
    } else {
      var less := NobodyTold(txs, n - 1);
      none := less + [[]];
      NobodyWatches(txs[..n - 1]);
      NobodyIsTold({}, txs[n - 1]);
      BlockToldMore({}, {}, txs, less, less, [], []);
      ToldMore(txs, less, true, []);
      ToldMore(txs, less, false, []);
    }
  }

  class NotificationManager {
    const ops: Watch<OutPoint>
    const addrs: Watch<string>
    var blocks: set<Client>
    var newTxs: set<Client>
    var clients: set<Client>
    /** The mempool transaction that spends an outpoint, as CheckSpend finds it. */
    var mempool: map<OutPoint, Tx>
    /** What has been queued to clients, oldest first: spends, and receipts. */
    var redeeming: seq<Notice>
    var receiving: seq<Notice>

    /** A mempool transaction is known by its hash, and spends the outpoint it is found by. */
    predicate MempoolOk()
      reads this
    {
      && (forall a, b :: a in mempool && b in mempool && mempool[a].hash == mempool[b].hash ==>
            mempool[a] == mempool[b])
      && (forall a :: a in mempool ==> SpentBy(mempool[a], a))
    }

    ghost predicate Valid()
      reads this, ops, addrs
    {
      ops.Valid() && addrs.Valid()
    }

    ghost function View(): State
      reads this, ops, addrs
    {
      State(ops.Pairs(), addrs.Pairs(), blocks, newTxs, clients)
    }

    constructor ()
      ensures Valid() && View() == State({}, {}, {}, {}, {}) && redeeming == receiving == []
      ensures fresh(ops) && fresh(addrs)
    {
      ops := new Watch();
      addrs := new Watch();
      blocks, newTxs, clients, mempool, redeeming, receiving := {}, {}, {}, map[], [], [];
    }

    /** One client that watches a spent outpoint. */
    method TellSpend(c: Client, op: OutPoint, e: Event, inBlock: bool, told: seq<Client>, ghost due: set<Client>,
        ghost log: seq<Notice>) returns (after: seq<Client>)
      requires ops.Valid() && Once(told, due) && redeeming == log + Tell(told, e)
      modifies ops, this`redeeming
      ensures ops.Valid() && ops.Pairs() == if inBlock then old(ops.Pairs()) - {(c, op)} else old(ops.Pairs())
      ensures Once(after, due + {c}) && redeeming == log + Tell(after, e)
    {
      if inBlock {
        ops.Remove(c, op);
      }
      MarkedOnce(told, due, c);
      TellMarked(log, told, c, e);
      if c !in told {
        redeeming := redeeming + [Notice(c, e)];
      }
      after := Marked(told, c);
    }

    /** One input of a transaction: the clients that watch the outpoint are told, unless they were already,
        and their requests removed if the transaction is in a block. */
    method NotifySpend(op: OutPoint, e: Event, inBlock: bool, told: seq<Client>, ghost due: set<Client>,
        ghost log: seq<Notice>) returns (after: seq<Client>)
      requires ops.Valid() && Once(told, due) && redeeming == log + Tell(told, e)
      modifies ops, this`redeeming
      ensures ops.Valid()
      ensures ops.Pairs() == if inBlock then WithoutKey(old(ops.Pairs()), op) else old(ops.Pairs())
      ensures Once(after, due + WatchersOf(old(ops.Pairs()), op)) && redeeming == log + Tell(after, e)
    {
      after := told;
      ghost var ps := ops.Pairs();
      var todo := ops.Clients(op);
      ghost var done: set<Client> := {};
      while todo != {}
        invariant ops.Valid() && done + todo == WatchersOf(ps, op)
        invariant ops.Pairs() == if inBlock then ps - Each(done, op) else ps
        invariant Once(after, due + done) && redeeming == log + Tell(after, e)
        decreases todo
      {
        var c := Next(todo);
        after := TellSpend(c, op, e, inBlock, after, due + done, log);
        EachMore(done, c, op);
        OneStep(due, done, todo, c);
        todo, done := todo - {c}, done + {c};
      }
      assert done == WatchersOf(ps, op);
      EachWatcher(ps, op);
    }

    /** notifyForTxIns */
    method NotifyForTxIns(tx: Tx, inBlock: bool) returns (told: seq<Client>)
      requires Valid()
      modifies ops, this`redeeming
      ensures ops.Valid() && ops.Pairs() == if inBlock then Unspent(old(ops.Pairs()), tx) else old(ops.Pairs())
      ensures Once(told, Redeemers(old(ops.Pairs()), tx))
      ensures redeeming == old(redeeming) + Tell(told, Redeeming(tx.hash, inBlock))
    {
      told := [];
      ghost var ps := ops.Pairs();
      var nobody := ops.IsEmpty();
      if nobody {
        return;
      }
      var e := Redeeming(tx.hash, inBlock);
      var i := 0;
      while i < |tx.ins|
        invariant i <= |tx.ins| && ops.Valid()
        invariant ops.Pairs() == if inBlock then Unspent(ps, FirstIns(tx, i)) else ps
        invariant Once(told, Redeemers(ps, FirstIns(tx, i)))
        invariant redeeming == old(redeeming) + Tell(told, e)
      {
        MoreRedeemers(ps, tx, i, inBlock);
        FewerSpends(ps, tx, i);
        told := NotifySpend(tx.ins[i].prev, e, inBlock, told, Redeemers(ps, FirstIns(tx, i)), old(redeeming));
        i := i + 1;
      }
      assert FirstIns(tx, i) == tx;
    }

    /** addSpentRequests: transactions of the mempool that already spend an outpoint are reported at once, to
        everyone who watches an input of theirs.  Those reports pass no addresses, so they add no requests
        and end. */
    method AddSpentRequests(c: Client, outpoints: seq<OutPoint>)
      requires Valid()
      modifies ops, this`redeeming, this`receiving
      ensures Valid() && ops.Pairs() == old(ops.Pairs()) + With(c, outpoints) && addrs.Pairs() == old(addrs.Pairs())
      ensures Grew(old(redeeming), redeeming) && receiving == old(receiving)
      ensures MempoolOk() ==> forall i :: 0 <= i < |outpoints| && outpoints[i] in mempool ==>
        Reported(redeeming, |old(redeeming)|, ops.Pairs(), mempool[outpoints[i]])
      decreases true, 0, 1
    {
      ops.AddAll(c, outpoints);
      var spends := FindSpends(outpoints);
      ReportSpends(spends);
    }

    /** The mempool transactions that spend the outpoints, each once. */
    method FindSpends(outpoints: seq<OutPoint>) returns (spends: map<int, Tx>)
      ensures MempoolOk() ==> forall i :: 0 <= i < |outpoints| && outpoints[i] in mempool ==>
        mempool[outpoints[i]].hash in spends && spends[mempool[outpoints[i]].hash] == mempool[outpoints[i]]
    {
      spends := map[];
      for i := 0 to |outpoints|
        invariant MempoolOk() ==> forall j :: 0 <= j < i && outpoints[j] in mempool ==>
          mempool[outpoints[j]].hash in spends && spends[mempool[outpoints[j]].hash] == mempool[outpoints[j]]
      {
        if outpoints[i] in mempool {
          var spend := mempool[outpoints[i]];
          spends := spends[spend.hash := spend];
        }
      }
    }

    method ReportSpends(spends: map<int, Tx>)
      requires Valid()
      modifies ops, this`redeeming, this`receiving
      ensures Valid() && ops.Pairs() == old(ops.Pairs()) && addrs.Pairs() == old(addrs.Pairs())
      ensures Grew(old(redeeming), redeeming) && receiving == old(receiving)
      ensures forall h :: h in spends ==> Reported(redeeming, |old(redeeming)|, ops.Pairs(), spends[h])
      decreases true, 0, 0
    {
      var todo := spends.Keys;
      ghost var ps := ops.Pairs();
      while todo != {}
        invariant Valid() && ops.Pairs() == ps && addrs.Pairs() == old(addrs.Pairs())
        invariant todo <= spends.Keys
        invariant Grew(old(redeeming), redeeming) && receiving == old(receiving)
        invariant forall h :: h in spends && h !in todo ==> Reported(redeeming, |old(redeeming)|, ps, spends[h])
        decreases todo
      {
        var h := Next(todo);
        ghost var log := redeeming;
        var redeemed, received := NotifyForTx(spends[h], false, false);
        ToldIsReported(log, redeemed, redeeming, |old(redeeming)|, ps, spends[h]);
        forall g | g in spends && g !in todo ensures Reported(redeeming, |old(redeeming)|, ps, spends[g]) {
          ReportedLater(log, redeeming, |old(redeeming)|, ps, spends[g]);
        }
        todo := todo - {h};
      }
    }

    /** One client of one address an output pays. */
    method PayClient(c: Client, op: OutPoint, e: Event, told: seq<Client>, ghost due: set<Client>,
        ghost log: seq<Notice>) returns (after: seq<Client>)
      requires Valid() && Once(told, due) && receiving == log + Tell(told, e)
      modifies ops, this`redeeming, this`receiving
      ensures Valid() && ops.Pairs() == old(ops.Pairs()) + {(c, op)} && addrs.Pairs() == old(addrs.Pairs())
      ensures Once(after, due + {c}) && receiving == log + Tell(after, e) && Grew(old(redeeming), redeeming)
      decreases true, 1
    {
      AddSpentRequests(c, [op]);
      WithOne(c, op);
      MarkedOnce(told, due, c);
      TellMarked(log, told, c, e);
      if c !in told {
        receiving := receiving + [Notice(c, e)];
      }
      after := Marked(told, c);
    }

    /** One address an output pays: its clients also watch the outpoint from now on. */
    method PayAddress(op: OutPoint, a: string, e: Event, told: seq<Client>, ghost due: set<Client>,
        ghost log: seq<Notice>) returns (after: seq<Client>)
      requires Valid() && Once(told, due) && receiving == log + Tell(told, e)
      modifies ops, this`redeeming, this`receiving
      ensures Valid() && addrs.Pairs() == old(addrs.Pairs())
      ensures ops.Pairs() == old(ops.Pairs()) + Each(WatchersOf(addrs.Pairs(), a), op)
      ensures Once(after, due + WatchersOf(addrs.Pairs(), a)) && receiving == log + Tell(after, e)
      ensures Grew(old(redeeming), redeeming)
      decreases true, 2
    {
      after := told;
      var todo := addrs.Clients(a);
      ghost var ps, all, done: set<Client> := ops.Pairs(), todo, {};
      while todo != {}
        invariant Valid() && done + todo == all && addrs.Pairs() == old(addrs.Pairs())
        invariant ops.Pairs() == ps + Each(done, op)
        invariant Once(after, due + done) && receiving == log + Tell(after, e)
        invariant Grew(old(redeeming), redeeming)
        decreases todo
      {
        var c := Next(todo);
        ghost var before := redeeming;
        after := PayClient(c, op, e, after, due + done, log);
        GrewAgain(old(redeeming), before, redeeming);
        EachMore(done, c, op);
        OneStep(due, done, todo, c);
        todo, done := todo - {c}, done + {c};
      }
      assert done == all;
    }

    /** All the addresses of one output. */
    method PayOutput(op: OutPoint, addresses: seq<string>, e: Event, told: seq<Client>, ghost due: set<Client>,
        ghost log: seq<Notice>) returns (after: seq<Client>)
      requires Valid() && Once(told, due) && receiving == log + Tell(told, e)
      modifies ops, this`redeeming, this`receiving
      ensures Valid() && addrs.Pairs() == old(addrs.Pairs())
      ensures ops.Pairs() == old(ops.Pairs()) + PaidOut(addrs.Pairs(), addresses, op)
      ensures Once(after, due + Watchers(PaidOut(addrs.Pairs(), addresses, op))) && receiving == log + Tell(after, e)
      ensures Grew(old(redeeming), redeeming)
      decreases true, 3
    {
      after := told;
      ghost var ps, watched := ops.Pairs(), addrs.Pairs();
      var j := 0;
      while j < |addresses|
        invariant j <= |addresses| && Valid() && addrs.Pairs() == watched
        invariant ops.Pairs() == ps + PaidOut(watched, addresses[..j], op)
        invariant Once(after, due + Watchers(PaidOut(watched, addresses[..j], op))) && receiving == log + Tell(after, e)
        invariant Grew(old(redeeming), redeeming)
      {
        ghost var here := PaidOut(watched, addresses[..j], op);
        ghost var cs := WatchersOf(watched, addresses[j]);
        OneMoreAddress(watched, addresses, op, j);
        WatchersOfBoth(here, Each(cs, op));
        WatchersOfEach(cs, op);
        ghost var before := redeeming;
        after := PayAddress(op, addresses[j], e, after, due + Watchers(here), log);
        GrewAgain(old(redeeming), before, redeeming);
        assert due + Watchers(here) + cs == due + (Watchers(here) + cs);
        j := j + 1;
      }
      assert addresses[..j] == addresses;
    }

    /** notifyForTxOuts */
    method NotifyForTxOuts(tx: Tx, inBlock: bool) returns (told: seq<Client>)
      requires Valid()
      modifies ops, this`redeeming, this`receiving
      ensures Valid() && ops.Pairs() == old(ops.Pairs()) + Paid(addrs.Pairs(), tx)
      ensures addrs.Pairs() == old(addrs.Pairs())
      ensures Once(told, Payees(addrs.Pairs(), tx)) && Grew(old(redeeming), redeeming)
      ensures receiving == old(receiving) + Tell(told, Receiving(tx.hash, inBlock))
      decreases true, 4
    {
      told := [];
      ghost var ps, watched := ops.Pairs(), addrs.Pairs();
      var nobody := addrs.IsEmpty();
      if nobody {
        NobodyIsTold(watched, tx);
        assert ops.Pairs() == ps + {} && receiving == old(receiving) + [];
        return;
      }
      var e := Receiving(tx.hash, inBlock);
      var i := 0;
      while i < |tx.outs|
        invariant i <= |tx.outs| && Valid() && addrs.Pairs() == watched
        invariant ops.Pairs() == ps + Paid(watched, FirstOuts(tx, i))
        invariant Once(told, Payees(watched, FirstOuts(tx, i))) && receiving == old(receiving) + Tell(told, e)
        invariant Grew(old(redeeming), redeeming)
      {
        ghost var less := FirstOuts(tx, i);
        var op := OutPoint(tx.hash, i);
        OneMoreOutput(watched, tx, i);
        WatchersOfBoth(Paid(watched, less), PaidOut(watched, Encoded(tx.outs[i]), op));
        told := PayOutput(op, Encoded(tx.outs[i]), e, told, Payees(watched, less), old(receiving));
        i := i + 1;
      }
      assert FirstOuts(tx, i) == tx;
    }

    /** notifyForTx, with addresses to look for or without.  Both halves do nothing when nobody watches. */
    method NotifyForTx(tx: Tx, withAddrs: bool, inBlock: bool) returns (redeemed: seq<Client>, received: seq<Client>)
      requires Valid()
      modifies ops, this`redeeming, this`receiving
      ensures Valid() && addrs.Pairs() == old(addrs.Pairs())
      ensures ops.Pairs() ==
        (if inBlock then Unspent(old(ops.Pairs()), tx) else old(ops.Pairs())) +
        (if withAddrs then Paid(addrs.Pairs(), tx) else {})
      ensures Once(redeemed, Redeemers(old(ops.Pairs()), tx))
      ensures Once(received, if withAddrs then Payees(addrs.Pairs(), tx) else {})
      ensures Grew(old(redeeming) + Tell(redeemed, Redeeming(tx.hash, inBlock)), redeeming)
      ensures receiving == old(receiving) + Tell(received, Receiving(tx.hash, inBlock))
      ensures !withAddrs ==> receiving == old(receiving)
      ensures !withAddrs && !inBlock ==> Grew(old(redeeming), redeeming)
      decreases withAddrs, 5
    {
      redeemed, received := [], [];
      redeemed := NotifyForTxIns(tx, inBlock);
      if withAddrs {
        received := NotifyForTxOuts(tx, inBlock);
      } else {
        assert Tell([], Receiving(tx.hash, inBlock)) == [];
      }
    }

    /** The transactions of a block in order. */
    method ConnectTxs(txs: seq<Tx>) returns (ghost redeemed: seq<seq<Client>>, ghost received: seq<seq<Client>>)
      requires Valid()
      modifies ops, this`redeeming, this`receiving
      ensures Valid() && addrs.Pairs() == old(addrs.Pairs())
      ensures ops.Pairs() == BlockStep(old(ops.Pairs()), addrs.Pairs(), txs)
      ensures |redeemed| == |txs| && BlockTold(old(ops.Pairs()), addrs.Pairs(), txs, redeemed, received)
      ensures Logged(txs, redeemed, received, old(redeeming), redeeming, old(receiving), receiving)
    {
      ghost var ps, watched := ops.Pairs(), addrs.Pairs();
      redeemed, received := [], [];
      var i := 0;
      while i < |txs|
        invariant i == |redeemed| <= |txs| && Valid() && addrs.Pairs() == watched
        invariant ops.Pairs() == BlockStep(ps, watched, txs[..i])
        invariant BlockTold(ps, watched, txs, redeemed, received)
        invariant Logged(txs, redeemed, received, old(redeeming), redeeming, old(receiving), receiving)
      {
        assert txs[..i + 1][..i] == txs[..i];
        ghost var spends, receipts := redeeming, receiving;
        var more, paid := NotifyForTx(txs[i], true, true);
        BlockToldMore(ps, watched, txs, redeemed, received, more, paid);
        LoggedMore(txs, redeemed, received, more, paid, old(redeeming), spends, redeeming, old(receiving), receipts,
                   receiving);
        redeemed, received, i := redeemed + [more], received + [paid], i + 1;
      }
      assert txs[..i] == txs;
    }

    /** A block was connected: its transactions are examined, unless nobody watches anything. */
    method ConnectBlock(txs: seq<Tx>) returns (ghost redeemed: seq<seq<Client>>, ghost received: seq<seq<Client>>)
      requires Valid()
      modifies ops, this`redeeming, this`receiving
      ensures Valid() && addrs.Pairs() == old(addrs.Pairs())
      ensures ops.Pairs() == BlockStep(old(ops.Pairs()), addrs.Pairs(), txs)
      ensures |redeemed| == |txs| && BlockTold(old(ops.Pairs()), addrs.Pairs(), txs, redeemed, received)
      ensures Logged(txs, redeemed, received, old(redeeming), redeeming, old(receiving), receiving)
    {
      var noOps := ops.IsEmpty();
      var noAddrs := addrs.IsEmpty();
      if noOps && noAddrs {
        NobodyWatches(txs);
        redeemed := NobodyTold(txs, |txs|);
        received := redeemed;
      } else {
        redeemed, received := ConnectTxs(txs);
      }
    }

    /** A block or a transaction has come in. */
    method HandleNews(m: Message) returns (ghost redeemed: seq<seq<Client>>, ghost received: seq<seq<Client>>)
      requires Valid() && (m.BlockConnected? || m.TxAccepted?)
      modifies ops, this`redeeming, this`receiving
      ensures Valid() && View() == Handle(old(View()), m)
      ensures Notified(m, old(View()), redeemed, received, old(redeeming), redeeming, old(receiving), receiving)
    {
      match m
      case BlockConnected(txs) => redeemed, received := ConnectBlock(txs);
      case TxAccepted(tx) =>
        var spenders, payees := NotifyForTx(tx, true, false);
        redeemed, received := [spenders], [payees];
    }

    /** A client asks for something or leaves. */
    method HandleRequest(m: Message)
      requires Valid() && !m.BlockConnected? && !m.TxAccepted? && !m.RegisterSpent?
      modifies this`blocks, this`newTxs, this`clients, ops, addrs
      ensures Valid() && View() == Handle(old(View()), m)
    {
      match m
      case RegisterBlocks(c) => blocks := blocks + {c};
      case UnregisterBlocks(c) => blocks := blocks - {c};
      case RegisterClient(c) => clients := clients + {c};
      case UnregisterClient(c) =>
        blocks, newTxs := blocks - {c}, newTxs - {c};
        ops.RemoveClient(c);
        addrs.RemoveClient(c);
        clients := clients - {c};
      case UnregisterSpent(c, op) => ops.Remove(c, op);
      case RegisterAddr(c, addresses) => addrs.AddAll(c, addresses);
      case UnregisterAddr(c, a) => addrs.Remove(c, a);
      case RegisterNewTxs(c) => newTxs := newTxs + {c};
      case UnregisterNewTxs(c) => newTxs := newTxs - {c};
    }

    /** One message taken off the queue by notificationHandler. */
    method HandleMessage(m: Message) returns (ghost redeemed: seq<seq<Client>>, ghost received: seq<seq<Client>>)
      requires Valid()
      modifies this, ops, addrs
      ensures Valid() && View() == Handle(old(View()), m) && mempool == old(mempool)
      ensures Notified(m, old(View()), redeemed, received, old(redeeming), redeeming, old(receiving), receiving)
      ensures MempoolOk() && m.RegisterSpent? ==> forall i :: 0 <= i < |m.ops| && m.ops[i] in mempool ==>
        Reported(redeeming, |old(redeeming)|, ops.Pairs(), mempool[m.ops[i]])
    {
      redeemed, received := [], [];
      match m
      case BlockConnected(_) => redeemed, received := HandleNews(m);
      case TxAccepted(_) => redeemed, received := HandleNews(m);
      case RegisterSpent(c, outpoints) => AddSpentRequests(c, outpoints);
      case _ => HandleRequest(m);
    }
  }
}
