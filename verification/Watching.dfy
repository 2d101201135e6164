/**
 What websocket clients watch, as sets of pairs: which client watches which outpoint, and which client
 watches which address.  A connected block removes the pairs it spends and adds the outputs that pay
 watched addresses, one transaction at a time.
 */
module Watching {
  import opened Common

  datatype Client = Client(quit: int)

  datatype OutPoint = OutPoint(hash: int, index: int)

  /** An address a script pays.  A public key, as paid by pay-to-pubkey and bare multisig scripts, has two
      renderings: encoded it is the address of the key's hash, as text it is the key itself. */
  datatype Address = Plain(address: string) | PubKey(address: string, key: string)

  /** Address.EncodeAddress and Address.String */
  function Encode(a: Address): string {
    a.address
  }

  function Text(a: Address): string {
    if a.PubKey? then a.key else a.address
  }

  function Encoded(addresses: seq<Address>): (r: seq<string>)
    ensures |r| == |addresses| && forall i :: 0 <= i < |r| ==> r[i] == Encode(addresses[i])
  {
    seq(|addresses|, i requires 0 <= i < |addresses| => Encode(addresses[i]))
  }

  function Texts(addresses: seq<Address>): (r: seq<string>)
    ensures |r| == |addresses| && forall i :: 0 <= i < |r| ==> r[i] == Text(addresses[i])
  {
    seq(|addresses|, i requires 0 <= i < |addresses| => Text(addresses[i]))
  }

  /** An input, with the address of the script it proves to spend, when one can be computed. */
  datatype TxIn = TxIn(prev: OutPoint, signer: Option<Address>)

  /** A transaction; an output is the addresses its script pays, none when the script is not standard. */
  datatype Tx = Tx(hash: int, ins: seq<TxIn>, outs: seq<seq<Address>>)

  type Spends = set<(Client, OutPoint)>
  type Addresses = set<(Client, string)>

  predicate SpentBy(tx: Tx, op: OutPoint) {
    exists i :: 0 <= i < |tx.ins| && tx.ins[i].prev == op
  }

  /** Output `op` of `tx` pays one of the addresses `c` watches, as encoded. */
  predicate PaidTo(addrs: Addresses, tx: Tx, c: Client, op: OutPoint) {
    && op.hash == tx.hash && 0 <= op.index < |tx.outs|
    && exists a :: a in Encoded(tx.outs[op.index]) && (c, a) in addrs
  }

  function Unspent(ps: Spends, tx: Tx): Spends {
    set p | p in ps && !SpentBy(tx, p.1)
  }

  function Outputs(tx: Tx): set<OutPoint> {
    set i | 0 <= i < |tx.outs| :: OutPoint(tx.hash, i)
  }

  function Watchers<K(==)>(ps: set<(Client, K)>): set<Client> {
    set p | p in ps :: p.0
  }

  function Paid(addrs: Addresses, tx: Tx): Spends {
    set c, op | c in Watchers(addrs) && op in Outputs(tx) && PaidTo(addrs, tx, c, op) :: (c, op)
  }

  lemma InPaid(addrs: Addresses, tx: Tx, c: Client, op: OutPoint)
    ensures (c, op) in Paid(addrs, tx) <==> PaidTo(addrs, tx, c, op)
  {
    if PaidTo(addrs, tx, c, op) {
      var a :| a in Encoded(tx.outs[op.index]) && (c, a) in addrs;
      assert (c, a).0 in Watchers(addrs);
      assert OutPoint(tx.hash, op.index) in Outputs(tx);
    }
  }

  /** One transaction of a block: its inputs stop being watched, then its outputs to watched addresses
      start to be. */
  function TxStep(ps: Spends, addrs: Addresses, tx: Tx): Spends {
    Unspent(ps, tx) + Paid(addrs, tx)
  }

  /** The transactions of a block in order. */
  function BlockStep(ps: Spends, addrs: Addresses, txs: seq<Tx>): Spends {
    if txs == [] then ps
    else TxStep(BlockStep(ps, addrs, txs[..|txs| - 1]), addrs, txs[|txs| - 1])
  }

  /** Transaction `j` of the block creates `op` for `c`, and no later one spends it. */
  predicate CreatedAt(addrs: Addresses, txs: seq<Tx>, c: Client, op: OutPoint, j: int) {
    && 0 <= j < |txs| && PaidTo(addrs, txs[j], c, op)
    && forall k :: j < k < |txs| ==> !SpentBy(txs[k], op)
  }

  predicate SpentIn(txs: seq<Tx>, op: OutPoint) {
    exists k :: 0 <= k < |txs| && SpentBy(txs[k], op)
  }

  /** What is watched after any block whatsoever: the old pairs the block does not spend, and the outputs
      to watched addresses that no later transaction of the block spends. */
  lemma {:induction false} WatchedAfter(ps: Spends, addrs: Addresses, txs: seq<Tx>, c: Client, op: OutPoint)
    ensures (c, op) in BlockStep(ps, addrs, txs) <==>
      ((c, op) in ps && !SpentIn(txs, op)) || (exists j :: CreatedAt(addrs, txs, c, op, j))
    decreases |txs|
  {
    if txs == [] {
    } else {
      var n := |txs| - 1;
      var front := txs[..n];
      WatchedAfter(ps, addrs, front, c, op);
      InPaid(addrs, txs[n], c, op);
      assert SpentIn(txs, op) <==> SpentIn(front, op) || SpentBy(txs[n], op) by {
        assert forall k :: 0 <= k < n ==> front[k] == txs[k];
      }
      CreatedSplit(addrs, txs, c, op);
    }
  }

  lemma CreatedSplit(addrs: Addresses, txs: seq<Tx>, c: Client, op: OutPoint)
    requires txs != []
    ensures var n := |txs| - 1;
      (exists j :: CreatedAt(addrs, txs, c, op, j)) <==>
      PaidTo(addrs, txs[n], c, op) || (!SpentBy(txs[n], op) && exists j :: CreatedAt(addrs, txs[..n], c, op, j))
  {
    var n := |txs| - 1;
    if exists j :: CreatedAt(addrs, txs, c, op, j) {
      var j :| CreatedAt(addrs, txs, c, op, j);
      if j < n {
        assert CreatedAt(addrs, txs[..n], c, op, j);
      }
    }
    if PaidTo(addrs, txs[n], c, op) {
      assert CreatedAt(addrs, txs, c, op, n);
    } else if !SpentBy(txs[n], op) && exists j :: CreatedAt(addrs, txs[..n], c, op, j) {
      var j :| CreatedAt(addrs, txs[..n], c, op, j);
      forall k | j < k < |txs| ensures !SpentBy(txs[k], op) {
        assert k == n || txs[..n][k] == txs[k];
      }
      assert CreatedAt(addrs, txs, c, op, j);
    }
  }

  /** Parents come before children: no transaction spends an output of its own or of a later one. */
  predicate ParentsFirst(txs: seq<Tx>) {
    forall i, j, op :: 0 <= i <= j < |txs| && op in Outputs(txs[j]) ==> !SpentBy(txs[i], op)
  }

  /** Once a block with parents before children has been processed, nobody watches an outpoint it spends. */
  lemma NothingSpentIsWatched(ps: Spends, addrs: Addresses, txs: seq<Tx>, c: Client, op: OutPoint)
    requires ParentsFirst(txs) && SpentIn(txs, op)
    ensures (c, op) !in BlockStep(ps, addrs, txs)
  {
    WatchedAfter(ps, addrs, txs, c, op);
    var k :| 0 <= k < |txs| && SpentBy(txs[k], op);
    forall j | 0 <= j < |txs| && PaidTo(addrs, txs[j], c, op) ensures j < k {
      assert OutPoint(txs[j].hash, op.index) in Outputs(txs[j]);
    }
  }

  // ---------- Messages to the notification handler ----------

  /** Everything the handler keeps: who watches what, and who wants blocks, new transactions, or is here. */
  datatype State = State(
    spends: Spends, addrs: Addresses, blocks: set<Client>, newTxs: set<Client>, clients: set<Client>)

  datatype Message =
    | BlockConnected(txs: seq<Tx>)
    | TxAccepted(tx: Tx)
    | RegisterBlocks(client: Client)
    | UnregisterBlocks(client: Client)
    | RegisterClient(client: Client)
    | UnregisterClient(client: Client)
    | RegisterSpent(client: Client, ops: seq<OutPoint>)
    | UnregisterSpent(client: Client, op: OutPoint)
    | RegisterAddr(client: Client, addresses: seq<string>)
    | UnregisterAddr(client: Client, address: string)
    | RegisterNewTxs(client: Client)
    | UnregisterNewTxs(client: Client)

  function With<K(==)>(c: Client, ks: seq<K>): set<(Client, K)> {
    set i | 0 <= i < |ks| :: (c, ks[i])
  }

  function Without<K(==)>(ps: set<(Client, K)>, c: Client): set<(Client, K)> {
    set p | p in ps && p.0 != c
  }

  function WithoutKey<K(==)>(ps: set<(Client, K)>, k: K): set<(Client, K)> {
    set p | p in ps && p.1 != k
  }

  function WatchersOf<K(==)>(ps: set<(Client, K)>, k: K): (cs: set<Client>)
    ensures forall c :: c in cs <==> (c, k) in ps
  {
    var cs := set p | p in ps && p.1 == k :: p.0;
    assert forall c :: (c, k) in ps ==> (c, k).0 in cs;
    cs
  }

  function Each<K(==)>(cs: set<Client>, k: K): set<(Client, K)> {
    set c | c in cs :: (c, k)
  }

  lemma EachMore<K>(cs: set<Client>, c: Client, k: K)
    ensures Each(cs + {c}, k) == Each(cs, k) + {(c, k)}
  {
  }

  lemma EachWatcher<K>(ps: set<(Client, K)>, k: K)
    ensures ps - Each(WatchersOf(ps, k), k) == WithoutKey(ps, k)
  {
  }

  lemma WatchersOfBoth<K>(ps: set<(Client, K)>, qs: set<(Client, K)>)
    ensures Watchers(ps + qs) == Watchers(ps) + Watchers(qs)
  {
    assert forall p :: p in ps || p in qs ==> p in ps + qs;
  }

  lemma WatchersOfEach<K>(cs: set<Client>, k: K)
    ensures Watchers(Each(cs, k)) == cs
  {
    assert forall c :: c in cs ==> (c, k) in Each(cs, k) && (c, k).0 == c;
  }

  function Handle(s: State, m: Message): State {
    match m
    case BlockConnected(txs) => s.(spends := BlockStep(s.spends, s.addrs, txs))
    case TxAccepted(tx) => s.(spends := s.spends + Paid(s.addrs, tx))
    case RegisterBlocks(c) => s.(blocks := s.blocks + {c})
    case UnregisterBlocks(c) => s.(blocks := s.blocks - {c})
    case RegisterClient(c) => s.(clients := s.clients + {c})
    case UnregisterClient(c) =>
      State(Without(s.spends, c), Without(s.addrs, c), s.blocks - {c}, s.newTxs - {c}, s.clients - {c})
    case RegisterSpent(c, ops) => s.(spends := s.spends + With(c, ops))
    case UnregisterSpent(c, op) => s.(spends := s.spends - {(c, op)})
    case RegisterAddr(c, addresses) => s.(addrs := s.addrs + With(c, addresses))
    case UnregisterAddr(c, a) => s.(addrs := s.addrs - {(c, a)})
    case RegisterNewTxs(c) => s.(newTxs := s.newTxs + {c})
    case UnregisterNewTxs(c) => s.(newTxs := s.newTxs - {c})
  }

  lemma InWith<K>(c: Client, ks: seq<K>, d: Client, k: K)
    ensures (d, k) in With(c, ks) <==> d == c && k in ks
  {
    if d == c && k in ks {
      var i :| 0 <= i < |ks| && ks[i] == k;
      assert (c, ks[i]) in With(c, ks);
    }
  }

  /** Who watches an outpoint after a message: new requests and payments to watched addresses add to those who
      did before; spends in blocks, withdrawn requests and clients that leave take away. */
  lemma WatchesAfter(s: State, m: Message, c: Client, op: OutPoint)
    ensures (c, op) in Handle(s, m).spends <==>
      var before := (c, op) in s.spends;
      match m
      case BlockConnected(txs) => (before && !SpentIn(txs, op)) || exists j :: CreatedAt(s.addrs, txs, c, op, j)
      case TxAccepted(tx) => before || PaidTo(s.addrs, tx, c, op)
      case UnregisterClient(d) => before && d != c
      case RegisterSpent(d, ops) => before || (d == c && op in ops)
      case UnregisterSpent(d, o) => before && (d != c || o != op)
      case _ => before
  {
    match m
    case BlockConnected(txs) => WatchedAfter(s.spends, s.addrs, txs, c, op);
    case TxAccepted(tx) => InPaid(s.addrs, tx, c, op);
    case RegisterSpent(d, ops) => InWith(d, ops, c, op);
    case _ =>
  }

  /** Who watches an address after a message. */
  lemma WatchesAddressAfter(s: State, m: Message, c: Client, a: string)
    ensures (c, a) in Handle(s, m).addrs <==>
      var before := (c, a) in s.addrs;
      match m
      case UnregisterClient(d) => before && d != c
      case RegisterAddr(d, addresses) => before || (d == c && a in addresses)
      case UnregisterAddr(d, b) => before && (d != c || b != a)
      case _ => before
  {
    match m
    case RegisterAddr(d, addresses) => InWith(d, addresses, c, a);
    case _ =>
  }

  /** Who wants blocks, who wants new transactions, and who is here, after a message. */
  lemma SubscribedAfter(s: State, m: Message, c: Client)
    ensures c in Handle(s, m).blocks <==>
      m == RegisterBlocks(c) || (c in s.blocks && m != UnregisterBlocks(c) && m != UnregisterClient(c))
    ensures c in Handle(s, m).newTxs <==>
      m == RegisterNewTxs(c) || (c in s.newTxs && m != UnregisterNewTxs(c) && m != UnregisterClient(c))
    ensures c in Handle(s, m).clients <==> m == RegisterClient(c) || (c in s.clients && m != UnregisterClient(c))
  {
  }

  /** The client is in none of the handler's maps. */
  predicate Nowhere(s: State, c: Client) {
    && (forall p :: p in s.spends ==> p.0 != c) && (forall p :: p in s.addrs ==> p.0 != c)
    && c !in s.blocks && c !in s.newTxs && c !in s.clients
  }

  predicate Registers(m: Message, c: Client) {
    match m
    case RegisterBlocks(d) => d == c
    case RegisterClient(d) => d == c
    case RegisterSpent(d, _) => d == c
    case RegisterAddr(d, _) => d == c
    case RegisterNewTxs(d) => d == c
    case _ => false
  }

  lemma NobodyIsPaid(addrs: Addresses, tx: Tx, c: Client)
    requires forall p :: p in addrs ==> p.0 != c
    ensures forall p :: p in Paid(addrs, tx) ==> p.0 != c
  {
    forall p | p in Paid(addrs, tx) ensures p.0 != c {
      InPaid(addrs, tx, p.0, p.1);
    }
  }

  lemma {:induction false} NobodyIsAdded(ps: Spends, addrs: Addresses, txs: seq<Tx>, c: Client)
    requires (forall p :: p in ps ==> p.0 != c) && (forall p :: p in addrs ==> p.0 != c)
    ensures forall p :: p in BlockStep(ps, addrs, txs) ==> p.0 != c
    decreases |txs|
  {
    if txs == [] {
    } else {
      NobodyIsAdded(ps, addrs, txs[..|txs| - 1], c);
      NobodyIsPaid(addrs, txs[|txs| - 1], c);
    }
  }

  /** A client that left comes back only by a message of its own. */
  lemma StaysNowhere(s: State, m: Message, c: Client)
    requires m == UnregisterClient(c) || (Nowhere(s, c) && !Registers(m, c))
    ensures Nowhere(Handle(s, m), c)
  {
    match m
    case BlockConnected(txs) => NobodyIsAdded(s.spends, s.addrs, txs, c);
    case TxAccepted(tx) => NobodyIsPaid(s.addrs, tx, c);
    case _ =>
  }

  function HandleAll(s: State, ms: seq<Message>): State {
    if ms == [] then s else Handle(HandleAll(s, ms[..|ms| - 1]), ms[|ms| - 1])
  }

  /** In every run, a client that unregistered and registered nothing since is in none of the maps,
      whatever blocks and transactions have come in between. */
  lemma {:induction false} LeaversAreForgotten(s: State, ms: seq<Message>, c: Client, left: nat)
    requires left < |ms| && ms[left] == UnregisterClient(c)
    requires forall j :: left < j < |ms| ==> !Registers(ms[j], c)
    ensures Nowhere(HandleAll(s, ms), c)
    decreases |ms|
  {
    var n := |ms| - 1;
    if left < n {
      LeaversAreForgotten(s, ms[..n], c, left);
    }
    StaysNowhere(HandleAll(s, ms[..n]), ms[n], c);
  }
}
