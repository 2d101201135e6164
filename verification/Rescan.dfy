/**
 Rescans of the chain for one websocket client: the blocks of a range are looked through for spends and
 receipts of interest.  What is then unspent is what live notifications would be watching, except where an
 output pays a public key: live notifications look for its encoded address, a rescan for its text.
 */
module Rescan {
  import opened Common
  import opened Watching

  datatype News = Redeemed(hash: int) | Received(hash: int)

  predicate Pays(addrs: set<string>, addresses: seq<string>) {
    exists a :: a in addresses && a in addrs
  }

  function Spent(tx: Tx): set<OutPoint> {
    set i | 0 <= i < |tx.ins| :: tx.ins[i].prev
  }

  function Found(addrs: set<string>, tx: Tx): set<OutPoint> {
    set i | 0 <= i < |tx.outs| && Pays(addrs, Texts(tx.outs[i])) :: OutPoint(tx.hash, i)
  }

  /** The input spends an outpoint of interest, or proves to spend from an address of interest. */
  predicate Concerns(u: set<OutPoint>, addrs: set<string>, txin: TxIn) {
    txin.prev in u || (txin.signer.Some? && Text(txin.signer.value) in addrs)
  }

  predicate Redeems(u: set<OutPoint>, addrs: set<string>, tx: Tx) {
    exists i :: 0 <= i < |tx.ins| && Concerns(u, addrs, tx.ins[i])
  }

  predicate Receives(addrs: set<string>, tx: Tx) {
    exists i :: 0 <= i < |tx.outs| && Pays(addrs, Texts(tx.outs[i]))
  }

  function ScanTx(u: set<OutPoint>, addrs: set<string>, tx: Tx): set<OutPoint> {
    u - Spent(tx) + Found(addrs, tx)
  }

  /** At most one notice for the inputs and one for the outputs. */
  function NewsOf(u: set<OutPoint>, addrs: set<string>, tx: Tx): seq<News> {
    (if Redeems(u, addrs, tx) then [Redeemed(tx.hash)] else []) +
    (if Receives(addrs, tx) then [Received(tx.hash)] else [])
  }

  function ScanBlock(u: set<OutPoint>, addrs: set<string>, txs: seq<Tx>): set<OutPoint> {
    if txs == [] then u else ScanTx(ScanBlock(u, addrs, txs[..|txs| - 1]), addrs, txs[|txs| - 1])
  }

  function BlockNews(u: set<OutPoint>, addrs: set<string>, txs: seq<Tx>): seq<News> {
    if txs == [] then []
    else
      var front := txs[..|txs| - 1];
      BlockNews(u, addrs, front) + NewsOf(ScanBlock(u, addrs, front), addrs, txs[|txs| - 1])
  }

  // ---------- The loops of rescanBlock ----------

  /** The inputs of a transaction.  A client that takes no more notices is found out when one is due. */
  method ScanInputs(unspent: set<OutPoint>, addrs: set<string>, tx: Tx, open: bool)
    returns (u: set<OutPoint>, spentNotified: bool, quit: bool)
    ensures quit <==> Redeems(unspent, addrs, tx) && !open
    ensures !quit ==> u == unspent - Spent(tx) && (spentNotified <==> Redeems(unspent, addrs, tx))
  {
    u, spentNotified, quit := unspent, false, false;
    for i := 0 to |tx.ins|
      invariant forall op :: op in u <==> op in unspent && forall j :: 0 <= j < i ==> tx.ins[j].prev != op
      invariant spentNotified <==> exists j :: 0 <= j < i && Concerns(unspent, addrs, tx.ins[j])
      invariant !quit && (spentNotified ==> open)
    {
      var txin := tx.ins[i];
      if txin.prev in u {
        u := u - {txin.prev};
        if spentNotified {
          continue;
        }
        if !open {
          quit := true;
          return;
        }
        spentNotified := true;
      }
      if txin.signer.Some? && Text(txin.signer.value) in addrs {
        if spentNotified {
          continue;
        }
        if !open {
          quit := true;
          return;
        }
        spentNotified := true;
      }
    }
  }

  /** One output of a transaction. */
  method ScanOutput(unspent: set<OutPoint>, addrs: set<string>, op: OutPoint, addresses: seq<string>, notified: bool,
      open: bool) returns (u: set<OutPoint>, recvNotified: bool, quit: bool)
    ensures quit <==> Pays(addrs, addresses) && !notified && !open
    ensures !quit ==> u == if Pays(addrs, addresses) then unspent + {op} else unspent
    ensures !quit ==> (recvNotified <==> notified || Pays(addrs, addresses))
  {
    u, recvNotified, quit := unspent, notified, false;
    for k := 0 to |addresses|
      invariant u == if Pays(addrs, addresses[..k]) then unspent + {op} else unspent
      invariant recvNotified <==> notified || Pays(addrs, addresses[..k])
      invariant !quit && (recvNotified ==> notified || open)
    {
      assert addresses[..k + 1] == addresses[..k] + [addresses[k]];
      if addresses[k] !in addrs {
        continue;
      }
      u := u + {op};
      if recvNotified {
        continue;
      }
      if !open {
        quit := true;
        return;
      }
      recvNotified := true;
    }
    assert addresses[..|addresses|] == addresses;
  }

  /** The outputs of a transaction. */
  method ScanOutputs(unspent: set<OutPoint>, addrs: set<string>, tx: Tx, open: bool)
    returns (u: set<OutPoint>, recvNotified: bool, quit: bool)
    ensures quit <==> Receives(addrs, tx) && !open
    ensures !quit ==> u == unspent + Found(addrs, tx) && (recvNotified <==> Receives(addrs, tx))
  {
    u, recvNotified, quit := unspent, false, false;
    for i := 0 to |tx.outs|
      invariant u == unspent + set j | 0 <= j < i && Pays(addrs, Texts(tx.outs[j])) :: OutPoint(tx.hash, j)
      invariant recvNotified <==> exists j :: 0 <= j < i && Pays(addrs, Texts(tx.outs[j]))
      invariant !quit && (recvNotified ==> open)
    {
      u, recvNotified, quit := ScanOutput(u, addrs, OutPoint(tx.hash, i), Texts(tx.outs[i]), recvNotified, open);
      if quit {
        return;
      }
    }
  }

  /** One transaction, for a client that takes any number of notices, or only so many before it is gone. */
  method RescanTx(unspent: set<OutPoint>, addrs: set<string>, tx: Tx, accepts: Option<nat>)
    returns (u: set<OutPoint>, sent: seq<News>, quit: bool)
    ensures quit <==> accepts.Some? && accepts.value < |NewsOf(unspent, addrs, tx)|
    ensures !quit ==> u == ScanTx(unspent, addrs, tx) && sent == NewsOf(unspent, addrs, tx)
    ensures quit ==> sent == NewsOf(unspent, addrs, tx)[..accepts.value]
  {
    sent := [];
    var spentNotified, recvNotified;
    u, spentNotified, quit := ScanInputs(unspent, addrs, tx, accepts.None? || accepts.value > 0);
    if quit {
      return;
    }
    if spentNotified {
      sent := [Redeemed(tx.hash)];
    }
    u, recvNotified, quit := ScanOutputs(u, addrs, tx, accepts.None? || |sent| < accepts.value);
    if quit {
      return;
    }
    if recvNotified {
      sent := sent + [Received(tx.hash)];
    }
  }

  /** How many more notices the client takes. */
  function Left(accepts: Option<nat>, sent: nat): Option<nat>
    requires accepts.Some? ==> sent <= accepts.value
  {
    match accepts
    case None => None
    case Some(n) => Some(n - sent)
  }

  lemma NewsOfNext(u: set<OutPoint>, addrs: set<string>, txs: seq<Tx>, i: nat)
    requires i < |txs|
    ensures ScanBlock(u, addrs, txs[..i + 1]) == ScanTx(ScanBlock(u, addrs, txs[..i]), addrs, txs[i])
    ensures BlockNews(u, addrs, txs[..i + 1]) ==
      BlockNews(u, addrs, txs[..i]) + NewsOf(ScanBlock(u, addrs, txs[..i]), addrs, txs[i])
    ensures BlockNews(u, addrs, txs[..i + 1]) <= BlockNews(u, addrs, txs)
  {
    assert txs[..i + 1][..i] == txs[..i];
    NewsGrows(u, addrs, txs, i + 1);
  }

  /** rescanBlock */
  method RescanBlock(unspent: set<OutPoint>, addrs: set<string>, txs: seq<Tx>, accepts: Option<nat>)
    returns (u: set<OutPoint>, sent: seq<News>, quit: bool)
    ensures quit <==> accepts.Some? && accepts.value < |BlockNews(unspent, addrs, txs)|
    ensures !quit ==> u == ScanBlock(unspent, addrs, txs) && sent == BlockNews(unspent, addrs, txs)
    ensures quit ==> sent == BlockNews(unspent, addrs, txs)[..accepts.value]
  {
    u, sent, quit := unspent, [], false;
    for i := 0 to |txs|
      invariant !quit && u == ScanBlock(unspent, addrs, txs[..i]) && sent == BlockNews(unspent, addrs, txs[..i])
      invariant accepts.Some? ==> |sent| <= accepts.value
    {
      NewsOfNext(unspent, addrs, txs, i);
      var news;
      u, news, quit := RescanTx(u, addrs, txs[i], Left(accepts, |sent|));
      sent := sent + news;
      if quit {
        return;
      }
    }
    assert txs[..|txs|] == txs;
  }

  /** What the first transactions of a block cause comes first. */
  lemma {:induction false} NewsGrows(u: set<OutPoint>, addrs: set<string>, txs: seq<Tx>, i: nat)
    requires i <= |txs|
    ensures BlockNews(u, addrs, txs[..i]) <= BlockNews(u, addrs, txs)
    decreases |txs| - i
  {
    if i == |txs| {
      assert txs[..i] == txs;
    } else {
      NewsGrows(u, addrs, txs, i + 1);
      assert txs[..i + 1][..i] == txs[..i];
    }
  }

  /** What a client is told of a transaction in a rescan: that it redeems, if an input spends an outpoint that
      is unspent when its turn comes or proves to spend from an address of interest, and then that it
      receives, if an output pays such an address; each once. */
  lemma NewsIff(u: set<OutPoint>, addrs: set<string>, txs: seq<Tx>, i: nat)
    requires i < |txs|
    ensures
      var tx, before := txs[i], ScanBlock(u, addrs, txs[..i]);
      BlockNews(u, addrs, txs[..i + 1]) == BlockNews(u, addrs, txs[..i]) +
      (if exists j :: 0 <= j < |tx.ins| && (|| tx.ins[j].prev in before
                                            || (tx.ins[j].signer.Some? && Text(tx.ins[j].signer.value) in addrs))
       then [Redeemed(tx.hash)] else []) +
      (if exists j, k :: 0 <= j < |tx.outs| && 0 <= k < |tx.outs[j]| && Text(tx.outs[j][k]) in addrs
       then [Received(tx.hash)] else [])
  {
    NewsOfNext(u, addrs, txs, i);
    ReceivesIff(addrs, txs[i]);
    var tx, before := txs[i], ScanBlock(u, addrs, txs[..i]);
    assert forall j :: 0 <= j < |tx.ins| ==>
      (Concerns(before, addrs, tx.ins[j]) <==>
       tx.ins[j].prev in before || (tx.ins[j].signer.Some? && Text(tx.ins[j].signer.value) in addrs));
  }

  lemma ReceivesIff(addrs: set<string>, tx: Tx)
    ensures Receives(addrs, tx) <==>
      exists j, k :: 0 <= j < |tx.outs| && 0 <= k < |tx.outs[j]| && Text(tx.outs[j][k]) in addrs
  {
    if j, k :| 0 <= j < |tx.outs| && 0 <= k < |tx.outs[j]| && Text(tx.outs[j][k]) in addrs {
      assert Texts(tx.outs[j])[k] in Texts(tx.outs[j]);
      assert Pays(addrs, Texts(tx.outs[j]));
    }
    if Receives(addrs, tx) {
      var j :| 0 <= j < |tx.outs| && Pays(addrs, Texts(tx.outs[j]));
      var a :| a in Texts(tx.outs[j]) && a in addrs;
      var k :| 0 <= k < |Texts(tx.outs[j])| && Texts(tx.outs[j])[k] == a;
      assert Text(tx.outs[j][k]) in addrs;
    }
  }

  // ---------- A rescan against live notifications ----------

  /** What one client watches. */
  function Mine<K(==, !new)>(ps: set<(Client, K)>, c: Client): (ks: set<K>)
    ensures forall k :: k in ks <==> (c, k) in ps
  {
    var ks := set p | p in ps && p.0 == c :: p.1;
    assert forall k :: (c, k) in ps ==> (c, k).1 in ks;
    ks
  }

  /** The two renderings by which an output may be looked up. */
  datatype Rendering = ByEncoding | ByText

  function Rendered(addresses: seq<Address>, how: Rendering): seq<string> {
    match how
    case ByEncoding => Encoded(addresses)
    case ByText => Texts(addresses)
  }

  predicate PaysBy(addrs: set<string>, tx: Tx, op: OutPoint, how: Rendering) {
    op.hash == tx.hash && 0 <= op.index < |tx.outs| && Pays(addrs, Rendered(tx.outs[op.index], how))
  }

  lemma LivePaysByEncoding(addrs: Addresses, tx: Tx, c: Client, op: OutPoint)
    ensures PaidTo(addrs, tx, c, op) <==> PaysBy(Mine(addrs, c), tx, op, ByEncoding)
  {
  }

  lemma RescanPaysByText(addrs: set<string>, tx: Tx, op: OutPoint)
    ensures op in Found(addrs, tx) <==> PaysBy(addrs, tx, op, ByText)
  {
    if PaysBy(addrs, tx, op, ByText) {
      assert OutPoint(tx.hash, op.index) in Found(addrs, tx);
    }
  }

  lemma SpentIffSpentBy(tx: Tx, op: OutPoint)
    ensures op in Spent(tx) <==> SpentBy(tx, op)
  {
  }

  /** One transaction: rescan and live notifications agree exactly when every output is of interest by both
      renderings or by neither, or was being watched and is not spent by the transaction itself. */
  lemma TxMatchesIff(ps: Spends, addrs: Addresses, tx: Tx, c: Client)
    ensures ScanTx(Mine(ps, c), Mine(addrs, c), tx) == Mine(TxStep(ps, addrs, tx), c) <==>
      forall i :: 0 <= i < |tx.outs| ==>
        || (Pays(Mine(addrs, c), Encoded(tx.outs[i])) <==> Pays(Mine(addrs, c), Texts(tx.outs[i])))
        || OutPoint(tx.hash, i) in Mine(ps, c) - Spent(tx)
  {
    var mine, scanned, live := Mine(addrs, c), ScanTx(Mine(ps, c), Mine(addrs, c), tx), Mine(TxStep(ps, addrs, tx), c);
    forall op
      ensures op in scanned <==> op in Mine(ps, c) - Spent(tx) || PaysBy(mine, tx, op, ByText)
      ensures op in live <==> op in Mine(ps, c) - Spent(tx) || PaysBy(mine, tx, op, ByEncoding)
    {
      RescanPaysByText(mine, tx, op);
      LivePaysByEncoding(addrs, tx, c, op);
      InPaid(addrs, tx, c, op);
      SpentIffSpentBy(tx, op);
    }
    if scanned == live {
      forall i | 0 <= i < |tx.outs| && OutPoint(tx.hash, i) !in Mine(ps, c) - Spent(tx)
        ensures Pays(mine, Encoded(tx.outs[i])) <==> Pays(mine, Texts(tx.outs[i]))
      {
        var op := OutPoint(tx.hash, i);
        assert PaysBy(mine, tx, op, ByText) <==> PaysBy(mine, tx, op, ByEncoding);
      }
    }
  }

  /** Transaction `j` pays `op` to an address of interest, and no later one spends it. */
  predicate KeptAt(addrs: set<string>, txs: seq<Tx>, op: OutPoint, how: Rendering, j: int) {
    && 0 <= j < |txs| && PaysBy(addrs, txs[j], op, how)
    && forall k :: j < k < |txs| ==> !SpentBy(txs[k], op)
  }

  ghost predicate Kept(addrs: set<string>, txs: seq<Tx>, op: OutPoint, how: Rendering) {
    exists j :: KeptAt(addrs, txs, op, how, j)
  }

  lemma KeptSplit(addrs: set<string>, txs: seq<Tx>, op: OutPoint, how: Rendering)
    requires txs != []
    ensures var n := |txs| - 1;
      Kept(addrs, txs, op, how) <==>
      PaysBy(addrs, txs[n], op, how) || (!SpentBy(txs[n], op) && Kept(addrs, txs[..n], op, how))
  {
    var n := |txs| - 1;
    if Kept(addrs, txs, op, how) {
      var j :| KeptAt(addrs, txs, op, how, j);
      assert j == n || KeptAt(addrs, txs[..n], op, how, j);
    }
    if PaysBy(addrs, txs[n], op, how) {
      assert KeptAt(addrs, txs, op, how, n);
    } else if !SpentBy(txs[n], op) && Kept(addrs, txs[..n], op, how) {
      var j :| KeptAt(addrs, txs[..n], op, how, j);
      forall k | j < k < |txs| ensures !SpentBy(txs[k], op) {
        assert k == n || txs[..n][k] == txs[k];
      }
      assert KeptAt(addrs, txs, op, how, j);
    }
  }

  lemma SpentInSplit(txs: seq<Tx>, op: OutPoint)
    requires txs != []
    ensures SpentIn(txs, op) <==> SpentIn(txs[..|txs| - 1], op) || SpentBy(txs[|txs| - 1], op)
  {
    var n := |txs| - 1;
    assert forall k :: 0 <= k < n ==> txs[..n][k] == txs[k];
  }

  /** What is unspent after a rescan of any transactions: what was and is not spent, and the outputs to
      addresses of interest, by their text, that are not spent later. */
  lemma {:induction false} ScannedAfter(u: set<OutPoint>, addrs: set<string>, txs: seq<Tx>, op: OutPoint)
    ensures op in ScanBlock(u, addrs, txs) <==>
      (op in u && !SpentIn(txs, op)) || Kept(addrs, txs, op, ByText)
    decreases |txs|
  {
    if txs == [] {
    } else {
      var n := |txs| - 1;
      ScannedAfter(u, addrs, txs[..n], op);
      SpentInSplit(txs, op);
      KeptSplit(addrs, txs, op, ByText);
      RescanPaysByText(addrs, txs[n], op);
      SpentIffSpentBy(txs[n], op);
    }
  }

  lemma LiveAfter(ps: Spends, addrs: Addresses, txs: seq<Tx>, c: Client, op: OutPoint)
    ensures op in Mine(BlockStep(ps, addrs, txs), c) <==>
      (op in Mine(ps, c) && !SpentIn(txs, op)) || Kept(Mine(addrs, c), txs, op, ByEncoding)
  {
    WatchedAfter(ps, addrs, txs, c, op);
    forall j ensures CreatedAt(addrs, txs, c, op, j) <==> KeptAt(Mine(addrs, c), txs, op, ByEncoding, j) {
      if 0 <= j < |txs| {
        LivePaysByEncoding(addrs, txs[j], c, op);
      }
    }
  }

  /** At one outpoint the renderings make no difference: it was watched and is not spent, or the transactions
      leave it to the client by both of them or by neither. */
  ghost predicate Indifferent(u: set<OutPoint>, addrs: set<string>, txs: seq<Tx>, op: OutPoint) {
    || (op in u && !SpentIn(txs, op))
    || (Kept(addrs, txs, op, ByEncoding) <==> Kept(addrs, txs, op, ByText))
  }

  /** A rescan of transactions leaves unspent exactly what a client that had been registered all along, for
      the same addresses and outpoints, would be watching afterwards, if and only if the rendering makes
      no difference at any outpoint. */
  lemma RescanMatchesIff(ps: Spends, addrs: Addresses, txs: seq<Tx>, c: Client)
    ensures ScanBlock(Mine(ps, c), Mine(addrs, c), txs) == Mine(BlockStep(ps, addrs, txs), c) <==>
      forall op :: Indifferent(Mine(ps, c), Mine(addrs, c), txs, op)
  {
    forall op
      ensures Indifferent(Mine(ps, c), Mine(addrs, c), txs, op) <==>
        (op in ScanBlock(Mine(ps, c), Mine(addrs, c), txs) <==> op in Mine(BlockStep(ps, addrs, txs), c))
    {
      ScannedAfter(Mine(ps, c), Mine(addrs, c), txs, op);
      LiveAfter(ps, addrs, txs, c, op);
    }
  }

  /** No output is of interest by one rendering only; so it is when no output pays a public key. */
  predicate SameInterest(addrs: set<string>, txs: seq<Tx>) {
    forall j, i :: 0 <= j < |txs| && 0 <= i < |txs[j].outs| ==>
      (Pays(addrs, Encoded(txs[j].outs[i])) <==> Pays(addrs, Texts(txs[j].outs[i])))
  }

  lemma SameInterestMatches(ps: Spends, addrs: Addresses, txs: seq<Tx>, c: Client)
    requires SameInterest(Mine(addrs, c), txs)
    ensures ScanBlock(Mine(ps, c), Mine(addrs, c), txs) == Mine(BlockStep(ps, addrs, txs), c)
  {
    RescanMatchesIff(ps, addrs, txs, c);
    var mine := Mine(addrs, c);
    forall op ensures Indifferent(Mine(ps, c), mine, txs, op) {
      forall j ensures KeptAt(mine, txs, op, ByEncoding, j) <==> KeptAt(mine, txs, op, ByText, j) {
        assert 0 <= j < |txs| ==> (PaysBy(mine, txs[j], op, ByEncoding) <==> PaysBy(mine, txs[j], op, ByText));
      }
    }
  }

  /** An output that pays a public key.  Whoever watches the key's address is told live and watches the
      output from then on, but a rescan finds nothing; for the key itself it is the other way round. */
  lemma PubKeyExample(c: Client, address: string, key: string)
    requires address != key
    ensures var tx, op := Tx(7, [], [[PubKey(address, key)]]), OutPoint(7, 0);
      && Mine(BlockStep({}, {(c, address)}, [tx]), c) == {op} && ScanBlock({}, {address}, [tx]) == {}
      && Mine(BlockStep({}, {(c, key)}, [tx]), c) == {} && ScanBlock({}, {key}, [tx]) == {op}
  {
    var tx, op := Tx(7, [], [[PubKey(address, key)]]), OutPoint(7, 0);
    var out := tx.outs[0];
    assert Encoded(out) == [address] && Texts(out) == [key];
    forall watched: string, q: OutPoint
      ensures (c, q) in BlockStep({}, {(c, watched)}, [tx]) <==> q == op && watched == address
      ensures q in ScanBlock({}, {watched}, [tx]) <==> q == op && watched == key
    {
      assert [tx][..0] == [];
      InPaid({(c, watched)}, tx, c, q);
      RescanPaysByText({watched}, tx, q);
      if q == op {
        assert watched == address ==> address in Encoded(out) && (c, address) in {(c, watched)};
        assert watched == key ==> key in Texts(out) && key in {watched};
      }
    }
  }
}
