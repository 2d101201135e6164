/**
 Payments and token operations: coins are selected, the transaction is built with payments first and change
 last, and each input is signed with the key of its address.  Amounts are 64-bit: sums of the amounts a
 caller asks for wrap around, and value is conserved exactly when they do not.
 */
module Payments {
  import opened Common
  import opened Coins
  import opened WalletKeys

  const DUST_THRESHOLD: int := 546
  const MAX_OUTPUTS: nat := 10
  const TWO_63: int := 0x8000_0000_0000_0000
  const TWO_64: int := 0x1_0000_0000_0000_0000

  /** How far a number is out of the range of 64-bit numbers. */
  function Beyond(x: int): nat {
    if x >= TWO_63 then x else if x < -TWO_63 then -x else 0
  }

  /** A 64-bit sum: the one number of that range the exact sum differs from by a multiple of two to the
      power of 64. */
  function Wrap(x: int): (y: int)
    ensures -TWO_63 <= y < TWO_63
    ensures -TWO_63 <= x < TWO_63 <==> y == x
    ensures x >= TWO_63 ==> y < x
    decreases Beyond(x)
  {
    if x >= TWO_63 then Wrap(x - TWO_64) else if x < -TWO_63 then Wrap(x + TWO_64) else x
  }

  type Int64 = x: int | -0x8000_0000_0000_0000 <= x < 0x8000_0000_0000_0000

  datatype Payment = Payment(address: string, amount: Int64)
  datatype TxOut = TxOut(value: int, script: Bytes)

  datatype Built = Built(
    ins: seq<Coin>, outs: seq<TxOut>, unlocks: seq<Unlock>, totalIn: int, amount: int, fee: int, change: int)

  datatype Error =
    | NoOutputs | TooManyOutputs | NegativeFee | NoInputs | BadAmount | BadAddress | BadChangeAddress
    | InsufficientFunds | UndecodedScript | NotOurAddress | NoKey | UnsupportedScript | BadPayload

  datatype Result = Ok(built: Built) | Err(error: Error)

  function Total(outs: seq<TxOut>): int {
    if outs == [] then 0 else Total(outs[..|outs| - 1]) + outs[|outs| - 1].value
  }

  /** What the payments come to, exactly. */
  function Asked(ps: seq<Payment>): int {
    if ps == [] then 0 else Asked(ps[..|ps| - 1]) + ps[|ps| - 1].amount
  }

  /** What the inputs hold beyond the outputs and the fee, given to the miners. */
  function Donation(b: Built): int {
    Sum(b.ins) - Total(b.outs) - b.fee
  }

  /** Every satoshi of the inputs is accounted for: it is paid out, or the fee, or a donation that is smaller
      than dust and made only when there is no change. */
  predicate Conserves(b: Built) {
    && 0 <= Donation(b) < DUST_THRESHOLD && (b.change > 0 ==> Donation(b) == 0)
  }

  lemma {:induction false} WrapShifts(x: int)
    ensures Wrap(x + TWO_64) == Wrap(x)
    decreases Beyond(x)
  {
    if x < -TWO_63 - TWO_64 {
      WrapShifts(x + TWO_64);
    }
  }

  lemma {:induction false} WrapSteps(x: int, y: int)
    ensures Wrap(Wrap(x) + y) == Wrap(x + y)
    decreases Beyond(x)
  {
    if x >= TWO_63 {
      WrapSteps(x - TWO_64, y);
      WrapShifts(x + y - TWO_64);
    } else if x < -TWO_63 {
      WrapSteps(x + TWO_64, y);
      WrapShifts(x + y);
    }
  }

  /** Wrapping around changes a number by a multiple of two to the power of 64. */
  lemma {:induction false} WrapIsCongruent(x: int) returns (k: int)
    ensures x == Wrap(x) + k * TWO_64
    decreases Beyond(x)
  {
    if x >= TWO_63 {
      k := WrapIsCongruent(x - TWO_64);
      k := k + 1;
    } else if x < -TWO_63 {
      k := WrapIsCongruent(x + TWO_64);
      k := k - 1;
    } else {
      k := 0;
    }
  }

  lemma TotalOfTwo(a: seq<TxOut>, o: TxOut)
    ensures Total(a + [o]) == Total(a) + o.value
  {
    assert (a + [o])[..|a|] == a;
  }

  /** The total of the payments, as the loops add it up. */
  method SumPayments(ps: seq<Payment>) returns (total: int)
    ensures total == Wrap(Asked(ps))
  {
    total := 0;
    for i := 0 to |ps|
      invariant total == Wrap(Asked(ps[..i]))
    {
      assert ps[..i + 1][..i] == ps[..i];
      WrapSteps(Asked(ps[..i]), ps[i].amount);
      total := Wrap(total + ps[i].amount);
    }
    assert ps[..|ps|] == ps;
  }

  // ---------- buildAndSign ----------

  /** The outputs for the payments, in order. */
  ghost predicate Pays(cr: Crypto, ps: seq<Payment>, outs: seq<TxOut>) {
    && |outs| == |ps|
    && forall i :: 0 <= i < |ps| ==>
        ps[i].amount > 0 && ScriptForAddress(cr, ps[i].address) == Some(outs[i].script) && outs[i].value == ps[i].amount
  }

  lemma {:induction false} PaysWhatIsAsked(cr: Crypto, ps: seq<Payment>, outs: seq<TxOut>)
    requires Pays(cr, ps, outs)
    ensures Total(outs) == Asked(ps) >= |ps|
    decreases |ps|
  {
    if ps == [] {
    } else {
      var n := |ps| - 1;
      PaysWhatIsAsked(cr, ps[..n], outs[..n]);
    }
  }

  predicate GoodPayments(cr: Crypto, ps: seq<Payment>) {
    forall i :: 0 <= i < |ps| ==> ps[i].amount > 0 && ScriptForAddress(cr, ps[i].address).Some?
  }

  method ParseOutputs(cr: Crypto, ps: seq<Payment>) returns (outs: seq<TxOut>, err: Option<Error>)
    ensures err.None? <==> GoodPayments(cr, ps)
    ensures err.None? ==> Pays(cr, ps, outs)
    ensures err.Some? ==> err.value in {BadAmount, BadAddress}
  {
    outs, err := [], None;
    for i := 0 to |ps|
      invariant |outs| == i && err.None? && Pays(cr, ps[..i], outs)
    {
      if ps[i].amount <= 0 {
        err := Some(BadAmount);
        return;
      }
      var script := ScriptForAddress(cr, ps[i].address);
      if script.None? {
        err := Some(BadAddress);
        return;
      }
      outs := outs + [TxOut(ps[i].amount, script.value)];
    }
    assert ps[..|ps|] == ps;
  }

  /** Every input carries what signInput makes of its script with the key of its address. */
  ghost predicate Signed(cr: Crypto, keys: map<string, Key>, ins: seq<Coin>, unlocks: seq<Unlock>) {
    && |unlocks| == |ins|
    && forall i :: 0 <= i < |ins| ==>
        && ins[i].script.Some? && ins[i].address in keys
        && SignInput(cr, ins[i].script.value, keys[ins[i].address]) == Some(unlocks[i])
  }

  predicate CanSign(cr: Crypto, keys: map<string, Key>, ins: seq<Coin>)
    requires Decoded(ins)
  {
    forall i :: 0 <= i < |ins| ==>
      ins[i].address in keys && SignInput(cr, ins[i].script.value, keys[ins[i].address]).Some?
  }

  method SignInputs(cr: Crypto, keys: map<string, Key>, ins: seq<Coin>)
    returns (unlocks: seq<Unlock>, err: Option<Error>)
    requires Decoded(ins)
    ensures err.None? <==> CanSign(cr, keys, ins)
    ensures err.None? ==> Signed(cr, keys, ins, unlocks)
    ensures err.Some? ==> err.value in {NoKey, UnsupportedScript}
  {
    unlocks, err := [], None;
    for i := 0 to |ins|
      invariant |unlocks| == i && err.None? && Signed(cr, keys, ins[..i], unlocks)
    {
      if ins[i].address !in keys {
        err := Some(NoKey);
        return;
      }
      var u := SignInput(cr, ins[i].script.value, keys[ins[i].address]);
      if u.None? {
        err := Some(UnsupportedScript);
        return;
      }
      unlocks := unlocks + [u.value];
    }
    assert ins[..|ins|] == ins;
  }

  /** Change of at least the dust threshold is an output of its own, at the end; less is left out. */
  function WithChange(outs: seq<TxOut>, change: int, script: Bytes): seq<TxOut> {
    if change >= DUST_THRESHOLD then outs + [TxOut(change, script)] else outs
  }

  lemma RestOf(have: int, asked: int)
    requires 0 <= asked < TWO_63 && asked <= have < TWO_63
    ensures Wrap(asked) == asked && Wrap(have - Wrap(asked)) == have - asked
  {
  }

  /** When nothing wraps around, value is conserved; when the sum asked for does, it never is. */
  lemma ConservesIff(b: Built, paid: seq<TxOut>, script: Bytes, rest: int)
    requires b.outs == WithChange(paid, rest, script) && b.change == if rest >= DUST_THRESHOLD then rest else 0
    requires Sum(b.ins) < TWO_63 && Total(paid) >= 0 && b.fee >= 0
    requires Sum(b.ins) >= Wrap(Total(paid) + b.fee) && rest == Wrap(Sum(b.ins) - Wrap(Total(paid) + b.fee))
    ensures Conserves(b) <==> Total(paid) + b.fee < TWO_63
  {
    TotalOfTwo(paid, TxOut(rest, script));
    if Total(paid) + b.fee < TWO_63 {
      RestOf(Sum(b.ins), Total(paid) + b.fee);
    }
  }

  /** What buildAndSign needs in order to succeed. */
  predicate Buildable(cr: Crypto, keys: map<string, Key>, ins: seq<Coin>, ps: seq<Payment>, fee: Int64,
    changeAddr: string)
    requires Decoded(ins)
  {
    && ps != [] && fee >= 0 && ins != [] && GoodPayments(cr, ps) && ScriptForAddress(cr, changeAddr).Some?
    && Sum(ins) >= Wrap(Asked(ps) + fee) && CanSign(cr, keys, ins)
  }

  /** The outputs are the payments, then the change if there is any, and each input is signed.  The change is
      what 64-bit arithmetic leaves of the inputs, or nothing if that is dust. */
  ghost predicate BuiltFor(cr: Crypto, keys: map<string, Key>, ins: seq<Coin>, ps: seq<Payment>, fee: Int64,
    changeAddr: string, b: Built)
  {
    && b.ins == ins && b.totalIn == Sum(ins) && b.amount == Wrap(Asked(ps)) && b.fee == fee
    && Signed(cr, keys, ins, b.unlocks)
    && |ps| <= |b.outs| && Pays(cr, ps, b.outs[..|ps|]) && ScriptForAddress(cr, changeAddr).Some?
    && b.outs[|ps|..] == (if b.change == 0 then [] else [TxOut(b.change, ScriptForAddress(cr, changeAddr).value)])
    && fee >= 0 && Wrap(Asked(ps) + fee) <= Sum(ins) < TWO_63
    && b.change == (var rest := Wrap(Sum(ins) - Wrap(Asked(ps) + fee)); if rest >= DUST_THRESHOLD then rest else 0)
  }

  lemma ChangeIsLast(outs: seq<TxOut>, rest: int, script: Bytes)
    ensures var all := WithChange(outs, rest, script);
      |outs| <= |all| && all[..|outs|] == outs &&
      all[|outs|..] == if rest >= DUST_THRESHOLD then [TxOut(rest, script)] else []
  {
  }

  lemma IsBuiltFor(cr: Crypto, keys: map<string, Key>, ins: seq<Coin>, ps: seq<Payment>, fee: Int64,
      changeAddr: string, b: Built, outs: seq<TxOut>, rest: int)
    requires Sum(ins) < TWO_63 && Pays(cr, ps, outs) && ScriptForAddress(cr, changeAddr).Some? && fee >= 0
    requires Sum(ins) >= Wrap(Asked(ps) + fee) && rest == Wrap(Sum(ins) - Wrap(Asked(ps) + fee))
    requires Signed(cr, keys, ins, b.unlocks) && b.ins == ins && b.totalIn == Sum(ins) && b.fee == fee
    requires b.amount == Wrap(Asked(ps))
    requires b.outs == WithChange(outs, rest, ScriptForAddress(cr, changeAddr).value)
    requires b.change == if rest >= DUST_THRESHOLD then rest else 0
    ensures BuiltFor(cr, keys, ins, ps, fee, changeAddr, b)
  {
    ChangeIsLast(outs, rest, ScriptForAddress(cr, changeAddr).value);
  }

  /** What buildAndSign builds conserves value if and only if the sum asked for fits 64 bits. */
  lemma BuiltConservesIff(cr: Crypto, keys: map<string, Key>, ins: seq<Coin>, ps: seq<Payment>, fee: Int64,
      changeAddr: string, b: Built)
    requires BuiltFor(cr, keys, ins, ps, fee, changeAddr, b)
    ensures Conserves(b) <==> Asked(ps) + fee < TWO_63
  {
    var paid := b.outs[..|ps|];
    PaysWhatIsAsked(cr, ps, paid);
    assert b.outs == paid + b.outs[|ps|..];
    ConservesIff(b, paid, ScriptForAddress(cr, changeAddr).value, Wrap(Sum(ins) - Wrap(Asked(ps) + fee)));
  }

  /** buildAndSign */
  method BuildAndSign(cr: Crypto, keys: map<string, Key>, ins: seq<Coin>, ps: seq<Payment>, fee: Int64,
      changeAddr: string) returns (r: Result)
    requires Decoded(ins) && Sum(ins) < TWO_63
    ensures r.Ok? <==> Buildable(cr, keys, ins, ps, fee, changeAddr)
    ensures r.Ok? ==> BuiltFor(cr, keys, ins, ps, fee, changeAddr, r.built)
  {
    if ps == [] {
      return Err(NoOutputs);
    }
    if fee < 0 {
      return Err(NegativeFee);
    }
    if ins == [] {
      return Err(NoInputs);
    }
    var outs, err := ParseOutputs(cr, ps);
    if err.Some? {
      return Err(err.value);
    }
    var chScript := ScriptForAddress(cr, changeAddr);
    if chScript.None? {
      return Err(BadChangeAddress);
    }
    var totalIn := Sum(ins);
    var totalOut := SumPayments(ps);
    var need := Wrap(totalOut + fee);
    WrapSteps(Asked(ps), fee);
    if totalIn < need {
      return Err(InsufficientFunds);
    }
    var rest := Wrap(totalIn - need);
    var change := if rest >= DUST_THRESHOLD then rest else 0;
    var unlocks;
    unlocks, err := SignInputs(cr, keys, ins);
    if err.Some? {
      return Err(err.value);
    }
    var b := Built(ins, WithChange(outs, rest, chScript.value), unlocks, totalIn, totalOut, fee, change);
    IsBuiltFor(cr, keys, ins, ps, fee, changeAddr, b, outs, rest);
    r := Ok(b);
  }

  // ---------- Send ----------

  /** The key belongs to an index one of whose addresses this is. */
  ghost predicate OwnKey(cr: Crypto, w: Wallet, addr: string, key: Key) {
    exists i :: 0 <= i < Count(w) && Derives(cr, w, i, addr) && w.key(i).value == key
  }

  ghost predicate OwnKeys(cr: Crypto, w: Wallet, keys: map<string, Key>) {
    forall a :: a in keys ==> OwnKey(cr, w, a, keys[a])
  }

  predicate Covered(keys: map<string, Key>, ins: seq<Coin>) {
    forall i :: 0 <= i < |ins| ==> ins[i].address in keys
  }

  /** Every address involved is mapped to its private key. */
  method MapKeys(cr: Crypto, w: Wallet, ins: seq<Coin>) returns (r: Option<map<string, Key>>)
    ensures r.Some? ==> OwnKeys(cr, w, r.value) && Covered(r.value, ins)
    ensures AllKeys(w) && (forall i :: 0 <= i < |ins| ==> IsVariant(cr, w, ins[i].address)) ==> r.Some?
  {
    var keys: map<string, Key> := map[];
    for i := 0 to |ins|
      invariant OwnKeys(cr, w, keys) && Covered(keys, ins[..i])
    {
      var addr := ins[i].address;
      if addr !in keys {
        var idx := AddressIndexFor(cr, w, addr);
        if idx.None? {
          return None;
        }
        keys := keys[addr := w.key(idx.value).value];
      }
    }
    r := Some(keys);
  }

  /** The wallet's primary address: index zero, native witness. */
  function PrimaryAddress(cr: Crypto, w: Wallet): Option<string> {
    match w.key(0)
    case Some(k) => DeriveAddressFor(cr, k, "bech32")
    case None => None
  }

  /** An output that pays one of the wallet's addresses, as the node reports it. */
  ghost predicate OwnCoin(cr: Crypto, w: Wallet, c: Coin) {
    IsVariant(cr, w, c.address) && c.script.Some? && c.script == ScriptForAddress(cr, c.address)
  }

  /** All keys derive and every coin is the wallet's own. */
  ghost predicate Healthy(cr: Crypto, w: Wallet, wallet: seq<Coin>) {
    && Faithful(cr) && AllKeys(w)
    && forall c :: c in wallet ==> OwnCoin(cr, w, c)
  }

  /** A payment one could ask for, given the money. */
  predicate Payable(cr: Crypto, ps: seq<Payment>, fee: Int64) {
    0 < |ps| <= MAX_OUTPUTS && GoodPayments(cr, ps) && fee >= 0
  }

  /** The change address is the wallet's own: the native witness address of its first key. */
  lemma ChangeComesBack(cr: Crypto, w: Wallet)
    requires Faithful(cr) && w.key(0).Some?
    ensures PrimaryAddress(cr, w) == Some(cr.encode(WitnessPubKeyHash(cr.hash160(cr.pubKey(w.key(0).value)))))
    ensures PrimaryAddress(cr, w).Some? && IsVariant(cr, w, PrimaryAddress(cr, w).value)
    ensures ScriptForAddress(cr, PrimaryAddress(cr, w).value).Some?
  {
    assert Derives(cr, w, 0, PrimaryAddress(cr, w).value) by {
      assert KINDS[0] == "bech32";
    }
    FoundKeyUnlocks(cr, w, PrimaryAddress(cr, w).value, 0);
  }

  lemma CoinsFrom(ins: seq<Coin>, wallet: seq<Coin>, i: nat)
    requires From(ins, wallet) && i < |ins|
    ensures ins[i] in wallet
  {
    assert ins[i] in multiset(ins);
    assert ins[i] in multiset(wallet);
  }

  /** The wallet's keys unlock the wallet's coins. */
  lemma OwnKeyUnlocks(cr: Crypto, w: Wallet, c: Coin, key: Key)
    requires Faithful(cr) && OwnCoin(cr, w, c) && OwnKey(cr, w, c.address, key)
    ensures cr.decode(c.address).Some?
    ensures var u := SignInput(cr, c.script.value, key); u.Some? && Unlocks(cr, cr.decode(c.address).value, u.value)
  {
    var i :| 0 <= i < Count(w) && Derives(cr, w, i, c.address) && w.key(i).value == key;
    FoundKeyUnlocks(cr, w, c.address, i);
  }

  /** Every input's unlocking data fits the output it spends. */
  ghost predicate AllUnlock(cr: Crypto, b: Built) {
    && |b.unlocks| == |b.ins|
    && forall i :: 0 <= i < |b.ins| ==>
        cr.decode(b.ins[i].address).Some? && Unlocks(cr, cr.decode(b.ins[i].address).value, b.unlocks[i])
  }

  lemma OwnCoinsUnlock(cr: Crypto, w: Wallet, keys: map<string, Key>, ins: seq<Coin>, b: Built)
    requires Faithful(cr) && OwnKeys(cr, w, keys) && Covered(keys, ins) && b.ins == ins
    requires forall i :: 0 <= i < |ins| ==> OwnCoin(cr, w, ins[i])
    ensures Decoded(ins) && CanSign(cr, keys, ins)
    ensures Signed(cr, keys, ins, b.unlocks) ==> AllUnlock(cr, b)
  {
    forall i | 0 <= i < |ins|
      ensures ins[i].address in keys && SignInput(cr, ins[i].script.value, keys[ins[i].address]).Some?
      ensures Signed(cr, keys, ins, b.unlocks) ==>
        cr.decode(ins[i].address).Some? && Unlocks(cr, cr.decode(ins[i].address).value, b.unlocks[i])
    {
      OwnKeyUnlocks(cr, w, ins[i], keys[ins[i].address]);
    }
  }

  /** What a payment that went through comes to. */
  ghost predicate Sent(cr: Crypto, w: Wallet, wallet: seq<Coin>, ps: seq<Payment>, fee: Int64, b: Built) {
    && Fewest(b.ins, wallet, Wrap(Asked(ps) + fee)) && PrimaryAddress(cr, w).Some?
    && (exists keys :: OwnKeys(cr, w, keys) && BuiltFor(cr, keys, b.ins, ps, fee, PrimaryAddress(cr, w).value, b))
    && (Healthy(cr, w, wallet) ==> AllUnlock(cr, b))
  }

  /** The stages after selection: keys, change address, building and signing. */
  method PayWith(cr: Crypto, w: Wallet, ghost wallet: seq<Coin>, ins: seq<Coin>, ps: seq<Payment>, fee: Int64)
    returns (r: Result)
    requires Decoded(ins) && Sum(ins) < TWO_63 && Fewest(ins, wallet, Wrap(Asked(ps) + fee))
    ensures r.Ok? ==> Sent(cr, w, wallet, ps, fee, r.built)
    ensures Healthy(cr, w, wallet) && Payable(cr, ps, fee) ==> (r.Ok? <==> ins != [])
  {
    ghost var healthy := Healthy(cr, w, wallet);
    forall i | 0 <= i < |ins| && healthy ensures OwnCoin(cr, w, ins[i]) {
      CoinsFrom(ins, wallet, i);
    }
    var keys := MapKeys(cr, w, ins);
    if keys.None? {
      return Err(NotOurAddress);
    }
    var changeAddr := PrimaryAddress(cr, w);
    if healthy {
      ChangeComesBack(cr, w);
    }
    if changeAddr.None? {
      return Err(BadChangeAddress);
    }
    r := BuildAndSign(cr, keys.value, ins, ps, fee, changeAddr.value);
    if healthy {
      OwnCoinsUnlock(cr, w, keys.value, ins, Built(ins, [], if r.Ok? then r.built.unlocks else [], 0, 0, 0, 0));
    }
  }

  lemma ChosenCovers(wallet: seq<Coin>, need: int, ins: seq<Coin>)
    requires Fewest(ins, wallet, need) && NoneCovers(wallet, TWO_63)
    ensures Sum(ins) < TWO_63 && !NoneCovers(wallet, need)
  {
  }

  method Need(ps: seq<Payment>, fee: Int64) returns (need: int)
    ensures need == Wrap(Asked(ps) + fee)
  {
    var totalOut := SumPayments(ps);
    WrapSteps(Asked(ps), fee);
    need := Wrap(totalOut + fee);
  }

  lemma HealthyDecodes(cr: Crypto, w: Wallet, wallet: seq<Coin>, c: Coin)
    requires Healthy(cr, w, wallet) && c in wallet
    ensures c.script.Some?
  {
  }

  /** Selection chooses no coins exactly when nothing is needed. */
  lemma ChosenIffNeeded(ins: seq<Coin>, wallet: seq<Coin>, need: int)
    requires Fewest(ins, wallet, need)
    ensures ins != [] <==> need > 0
  {
    var none: seq<Coin> := [];
    assert From(none, wallet) && Sum(none) == 0;
  }

  /** Selection and what follows it. */
  method SelectAndPay(cr: Crypto, w: Wallet, wallet: seq<Coin>, ps: seq<Payment>, fee: Int64, need: int)
    returns (r: Result)
    requires NoneCovers(wallet, TWO_63) && need == Wrap(Asked(ps) + fee)
    ensures r.Ok? ==> Sent(cr, w, wallet, ps, fee, r.built)
    ensures Healthy(cr, w, wallet) && Payable(cr, ps, fee) ==> (r.Ok? <==> need > 0 && !NoneCovers(wallet, need))
  {
    var chosen := SelectCoins(wallet, need);
    if chosen.Insufficient? {
      r := Err(InsufficientFunds);
    } else if chosen.BadScript? {
      ghost var c :| c in wallet && c.script.None?;
      if Healthy(cr, w, wallet) {
        HealthyDecodes(cr, w, wallet, c);
      }
      r := Err(UndecodedScript);
    } else {
      ChosenCovers(wallet, need, chosen.coins);
      ChosenIffNeeded(chosen.coins, wallet, need);
      r := PayWith(cr, w, wallet, chosen.coins, ps, fee);
    }
  }

  /** Send, up to the broadcast.  From a wallet in order, a payment one could ask for goes through exactly when
      its 64-bit need is positive and some selection of the wallet's coins covers that. */
  method Send(cr: Crypto, w: Wallet, wallet: seq<Coin>, ps: seq<Payment>, fee: Int64) returns (r: Result)
    requires NoneCovers(wallet, TWO_63)
    ensures r.Ok? ==> 0 < |ps| <= MAX_OUTPUTS && Sent(cr, w, wallet, ps, fee, r.built)
    ensures Healthy(cr, w, wallet) && Payable(cr, ps, fee) ==>
      (r.Ok? <==> Wrap(Asked(ps) + fee) > 0 && !NoneCovers(wallet, Wrap(Asked(ps) + fee)))
  {
    if |ps| == 0 {
      return Err(NoOutputs);
    }
    if |ps| > MAX_OUTPUTS {
      return Err(TooManyOutputs);
    }
    var need := Need(ps, fee);
    r := SelectAndPay(cr, w, wallet, ps, fee, need);
  }

  /** What is sent conserves value if and only if the sum asked for fits 64 bits. */
  lemma SentConservesIff(cr: Crypto, w: Wallet, wallet: seq<Coin>, ps: seq<Payment>, fee: Int64, b: Built)
    requires Sent(cr, w, wallet, ps, fee, b)
    ensures Conserves(b) <==> Asked(ps) + fee < TWO_63
  {
    var keys :| OwnKeys(cr, w, keys) && BuiltFor(cr, keys, b.ins, ps, fee, PrimaryAddress(cr, w).value, b);
    BuiltConservesIff(cr, keys, b.ins, ps, fee, PrimaryAddress(cr, w).value, b);
  }

  /** Three payments to one address: twice the largest amount, and three. */
  function WrappingPayments(a: string): seq<Payment> {
    [Payment(a, 0x7fff_ffff_ffff_ffff), Payment(a, 0x7fff_ffff_ffff_ffff), Payment(a, 3)]
  }

  lemma WrappingSum(a: string)
    ensures Asked(WrappingPayments(a)) == TWO_64 + 1 && Wrap(Asked(WrappingPayments(a))) == 1
  {
    var ps := WrappingPayments(a);
    assert Asked(ps[..1]) == 0x7fff_ffff_ffff_ffff by {
      assert ps[..1][..0] == [];
    }
    assert Asked(ps[..2]) == 0xffff_ffff_ffff_fffe by {
      assert ps[..2][..1] == ps[..1];
    }
    assert Asked(ps) == TWO_64 + 1;
    assert Wrap(TWO_64 + 1) == Wrap(1);
  }

  lemma OneCoinCovers(c: Coin)
    requires c.value == 1000
    ensures !NoneCovers([c], 1) && NoneCovers([c], TWO_63)
  {
    assert Sum([c]) == 1000 by {
      assert [c][..0] == [];
    }
    WalletCoversIff([c], 1);
    WalletCoversIff([c], TWO_63);
  }

  /** A wallet in order sends whatever wraps around to a need it can cover, and does not conserve value. */
  method SendWrapped(cr: Crypto, w: Wallet, wallet: seq<Coin>, ps: seq<Payment>, fee: Int64) returns (r: Result)
    requires NoneCovers(wallet, TWO_63) && Healthy(cr, w, wallet) && Payable(cr, ps, fee)
    requires Asked(ps) + fee >= TWO_63 && Wrap(Asked(ps) + fee) > 0 && !NoneCovers(wallet, Wrap(Asked(ps) + fee))
    ensures r.Ok? && Sent(cr, w, wallet, ps, fee, r.built) && !Conserves(r.built)
  {
    r := Send(cr, w, wallet, ps, fee);
    SentConservesIff(cr, w, wallet, ps, fee, r.built);
  }

  lemma OnlyChoice(ins: seq<Coin>, c: Coin)
    requires Fewest(ins, [c], 1) && c.value == 1000
    ensures ins == [c]
  {
    assert Sum([c]) == 1000 by {
      assert [c][..0] == [];
    }
    assert From([c], [c]);
    ChosenIffNeeded(ins, [c], 1);
    CoinsFrom(ins, [c], 0);
  }

  lemma TotalOfRest(outs: seq<TxOut>, n: nat, change: int, script: Bytes)
    requires n <= |outs| && outs[n..] == if change == 0 then [] else [TxOut(change, script)]
    ensures Total(outs) == Total(outs[..n]) + change
  {
    assert outs == outs[..n] + outs[n..];
    if change == 0 {
      assert outs == outs[..n];
    } else {
      TotalOfTwo(outs[..n], TxOut(change, script));
    }
  }

  /** What is built pays out what was asked for and the change, wrapped around or not. */
  lemma BuiltPaysOut(cr: Crypto, keys: map<string, Key>, ins: seq<Coin>, ps: seq<Payment>, fee: Int64,
      changeAddr: string, b: Built)
    requires BuiltFor(cr, keys, ins, ps, fee, changeAddr, b)
    ensures Total(b.outs) == Asked(ps) + b.change
  {
    PaysWhatIsAsked(cr, ps, b.outs[..|ps|]);
    TotalOfRest(b.outs, |ps|, b.change, ScriptForAddress(cr, changeAddr).value);
  }

  lemma SentPaysOut(cr: Crypto, w: Wallet, wallet: seq<Coin>, ps: seq<Payment>, fee: Int64, b: Built)
    requires Sent(cr, w, wallet, ps, fee, b)
    ensures Total(b.outs) == Asked(ps) + b.change && b.change >= 0
  {
    var keys :| OwnKeys(cr, w, keys) && BuiltFor(cr, keys, b.ins, ps, fee, PrimaryAddress(cr, w).value, b);
    BuiltPaysOut(cr, keys, b.ins, ps, fee, PrimaryAddress(cr, w).value, b);
  }

  /** Those payments need a single satoshi after wrapping around.  A wallet with one ordinary coin sends them,
      and the transaction pays out more than the coin is worth. */
  method WrappedSumExample(cr: Crypto, w: Wallet, c: Coin, a: string) returns (r: Result)
    requires Healthy(cr, w, [c]) && c.value == 1000 && ScriptForAddress(cr, a).Some?
    ensures r.Ok? && r.built.ins == [c] && Total(r.built.outs) > TWO_64 && !Conserves(r.built)
  {
    WrappingSum(a);
    OneCoinCovers(c);
    r := SendWrapped(cr, w, [c], WrappingPayments(a), 0);
    OnlyChoice(r.built.ins, c);
    SentPaysOut(cr, w, [c], WrappingPayments(a), 0, r.built);
  }

  // ---------- Token operations ----------

  /** A token operation: the data output's script, absent when the payload cannot be put in one, and the
      marker payment, none when its address is empty. */
  datatype Token = Token(data: Option<Bytes>, markerAddr: string, markerAmount: Int64, fee: Int64)

  function TokenNeed(op: Token): int {
    Wrap(op.fee + if op.markerAddr != "" then op.markerAmount else 0)
  }

  predicate HasMarker(op: Token) {
    op.markerAddr != "" && op.markerAmount > 0
  }

  /** The marker output, if there is one, then the data output, which carries no value. */
  function TokenOuts(op: Token, marker: Bytes, data: Bytes): seq<TxOut> {
    (if HasMarker(op) then [TxOut(op.markerAmount, marker)] else []) + [TxOut(0, data)]
  }

  function TokenTx(op: Token, ins: seq<Coin>, unlocks: seq<Unlock>, marker: Bytes, data: Bytes, script: Bytes): Built {
    var rest := Wrap(Sum(ins) - TokenNeed(op));
    var change := if rest >= DUST_THRESHOLD then rest else 0;
    Built(ins, WithChange(TokenOuts(op, marker, data), rest, script), unlocks, Sum(ins), op.markerAmount, op.fee,
          change)
  }

  /** A marker amount below zero lowers the need without an output to show for it. */
  predicate Overpays(op: Token, ins: seq<Coin>) {
    && op.markerAddr != "" && op.markerAmount < 0
    && (Sum(ins) - TokenNeed(op) >= DUST_THRESHOLD || Sum(ins) < op.fee)
  }

  lemma TotalOfToken(op: Token, marker: Bytes, data: Bytes)
    ensures Total(TokenOuts(op, marker, data)) == if HasMarker(op) then op.markerAmount else 0
  {
    var outs := TokenOuts(op, marker, data);
    TotalOfTwo(outs[..|outs| - 1], TxOut(0, data));
    assert outs[..|outs| - 1] + [TxOut(0, data)] == outs;
    if HasMarker(op) {
      TotalOfTwo([], TxOut(op.markerAmount, marker));
      assert outs[..1] == [] + [TxOut(op.markerAmount, marker)];
    }
  }

  /** A token operation conserves value unless its marker amount is negative and either leaves change, or has
      let coins worth less than the fee pass for enough. */
  lemma TokenConservesIff(op: Token, ins: seq<Coin>, unlocks: seq<Unlock>, marker: Bytes, data: Bytes, script: Bytes)
    requires Sum(ins) < TWO_63 && op.fee >= 0 && Sum(ins) >= TokenNeed(op) > 0
    ensures var b := TokenTx(op, ins, unlocks, marker, data, script); Conserves(b) <==> !Overpays(op, ins)
  {
    var b := TokenTx(op, ins, unlocks, marker, data, script);
    var rest := Sum(ins) - TokenNeed(op);
    TotalOfToken(op, marker, data);
    TotalOfTwo(TokenOuts(op, marker, data), TxOut(rest, script));
    if op.markerAddr != "" {
      NoWrapAbove(op.fee, op.markerAmount);
    }
  }

  /** Two 64-bit numbers whose wrapped sum is positive, the first not negative, did not wrap. */
  lemma NoWrapAbove(x: Int64, y: Int64)
    requires x >= 0 && Wrap(x + y) > 0
    ensures Wrap(x + y) == x + y
  {
  }

  /** With a marker of minus a hundred, a fee of a thousand is not paid in full. */
  lemma NegativeMarkerExample(c: Coin, script: Bytes)
    requires c.value == 10000
    ensures var b := TokenTx(Token(Some([]), "marker", -100, 1000), [c], [], [], [], script);
      b.change == 9100 && Donation(b) == -100 && !Conserves(b)
  {
    var op := Token(Some([]), "marker", -100, 1000);
    assert [c][..0] == [];
    assert Sum([c]) == 10000;
    TotalOfToken(op, [], []);
    TotalOfTwo(TokenOuts(op, [], []), TxOut(9100, script));
  }

  ghost predicate TokenSent(cr: Crypto, w: Wallet, wallet: seq<Coin>, op: Token, b: Built) {
    && b.ins != [] && Fewest(b.ins, wallet, TokenNeed(op)) && op.data.Some? && op.fee >= 0
    && PrimaryAddress(cr, w).Some? && ScriptForAddress(cr, PrimaryAddress(cr, w).value).Some?
    && (exists marker ::
          && (HasMarker(op) ==> ScriptForAddress(cr, op.markerAddr) == Some(marker))
          && b == TokenTx(op, b.ins, b.unlocks, marker, op.data.value,
                          ScriptForAddress(cr, PrimaryAddress(cr, w).value).value))
    && (exists keys :: OwnKeys(cr, w, keys) && Signed(cr, keys, b.ins, b.unlocks))
    && (Healthy(cr, w, wallet) ==> AllUnlock(cr, b))
    && Sum(b.ins) < TWO_63
  }

  lemma TokenRest(op: Token, have: int)
    requires op.fee >= 0 && TokenNeed(op) > 0 && TokenNeed(op) <= have < TWO_63
    ensures Wrap(have - TokenNeed(op)) == have - op.fee - if op.markerAddr != "" then op.markerAmount else 0
  {
    if op.markerAddr != "" {
      NoWrapAbove(op.fee, op.markerAmount);
    }
  }

  lemma OutsInOrder(op: Token, marker: Bytes, data: Bytes, rest: int, script: Bytes)
    ensures
      var k, outs := if HasMarker(op) then 1 else 0, WithChange(TokenOuts(op, marker, data), rest, script);
      && |outs| > k && (k == 1 ==> outs[0] == TxOut(op.markerAmount, marker)) && outs[k] == TxOut(0, data)
      && outs[k + 1..] == if rest >= 546 then [TxOut(rest, script)] else []
  {
  }

  /** What a token operation sends: the marker amount to the marker's address, if there is one; then the data,
      with no value; then the change to the primary address, if it is at least 546.  The change is what the
      inputs hold beyond the fee and the marker amount. */
  lemma TokenPays(cr: Crypto, w: Wallet, wallet: seq<Coin>, op: Token, b: Built)
    requires TokenSent(cr, w, wallet, op, b)
    ensures
      var k := if op.markerAddr != "" && op.markerAmount > 0 then 1 else 0;
      var rest := Sum(b.ins) - op.fee - if op.markerAddr != "" then op.markerAmount else 0;
      && |b.outs| > k
      && (k == 1 ==>
            && ScriptForAddress(cr, op.markerAddr).Some?
            && b.outs[0] == TxOut(op.markerAmount, ScriptForAddress(cr, op.markerAddr).value))
      && op.data.Some? && b.outs[k] == TxOut(0, op.data.value)
      && b.change == (if rest >= 546 then rest else 0)
      && PrimaryAddress(cr, w).Some? && ScriptForAddress(cr, PrimaryAddress(cr, w).value).Some?
      && b.outs[k + 1..] ==
         (if rest >= 546 then [TxOut(rest, ScriptForAddress(cr, PrimaryAddress(cr, w).value).value)] else [])
      && b.totalIn == Sum(b.ins) && b.fee == op.fee && b.amount == op.markerAmount
  {
    var script := ScriptForAddress(cr, PrimaryAddress(cr, w).value).value;
    var marker :|
      && (HasMarker(op) ==> ScriptForAddress(cr, op.markerAddr) == Some(marker))
      && b == TokenTx(op, b.ins, b.unlocks, marker, op.data.value, script);
    ChosenIffNeeded(b.ins, wallet, TokenNeed(op));
    TokenRest(op, Sum(b.ins));
    OutsInOrder(op, marker, op.data.value, Wrap(Sum(b.ins) - TokenNeed(op)), script);
  }

  /** What a token operation sends conserves value unless it overpays. */
  lemma TokenSentConservesIff(cr: Crypto, w: Wallet, wallet: seq<Coin>, op: Token, b: Built)
    requires TokenSent(cr, w, wallet, op, b)
    ensures Conserves(b) <==> !Overpays(op, b.ins)
  {
    var script := ScriptForAddress(cr, PrimaryAddress(cr, w).value).value;
    var marker :| b == TokenTx(op, b.ins, b.unlocks, marker, op.data.value, script);
    ChosenIffNeeded(b.ins, wallet, TokenNeed(op));
    TokenConservesIff(op, b.ins, b.unlocks, marker, op.data.value, script);
  }

  lemma TokenIsSent(cr: Crypto, w: Wallet, wallet: seq<Coin>, op: Token, keys: map<string, Key>, b: Built,
      marker: Bytes)
    requires NoneCovers(wallet, TWO_63) && b.ins != [] && Fewest(b.ins, wallet, TokenNeed(op)) && op.fee >= 0
    requires op.data.Some? && PrimaryAddress(cr, w).Some?
    requires ScriptForAddress(cr, PrimaryAddress(cr, w).value).Some?
    requires HasMarker(op) ==> ScriptForAddress(cr, op.markerAddr) == Some(marker)
    requires b ==
      TokenTx(op, b.ins, b.unlocks, marker, op.data.value, ScriptForAddress(cr, PrimaryAddress(cr, w).value).value)
    requires OwnKeys(cr, w, keys) && Covered(keys, b.ins) && Signed(cr, keys, b.ins, b.unlocks)
    ensures TokenSent(cr, w, wallet, op, b)
  {
    if Healthy(cr, w, wallet) {
      forall i | 0 <= i < |b.ins| ensures OwnCoin(cr, w, b.ins[i]) {
        CoinsFrom(b.ins, wallet, i);
      }
      OwnCoinsUnlock(cr, w, keys, b.ins, b);
    }
  }

  /** The fee is not negative, the data fits, and the marker, if there is one, goes to an address. */
  predicate WellFormed(cr: Crypto, op: Token) {
    op.fee >= 0 && op.data.Some? && (HasMarker(op) ==> ScriptForAddress(cr, op.markerAddr).Some?)
  }

  /** The stages after selection: keys, change address, marker, building and signing. */
  method TokenWith(cr: Crypto, w: Wallet, ghost wallet: seq<Coin>, ins: seq<Coin>, op: Token) returns (r: Result)
    requires NoneCovers(wallet, TWO_63) && Decoded(ins) && ins != [] && Fewest(ins, wallet, TokenNeed(op))
    requires op.data.Some? && op.fee >= 0
    ensures r.Ok? ==> TokenSent(cr, w, wallet, op, r.built)
    ensures Healthy(cr, w, wallet) ==> (r.Ok? <==> WellFormed(cr, op))
  {
    ghost var healthy := Healthy(cr, w, wallet);
    forall i | 0 <= i < |ins| && healthy ensures OwnCoin(cr, w, ins[i]) {
      CoinsFrom(ins, wallet, i);
    }
    var keys := MapKeys(cr, w, ins);
    if keys.None? {
      return Err(NotOurAddress);
    }
    var changeAddr := PrimaryAddress(cr, w);
    if healthy {
      ChangeComesBack(cr, w);
      OwnCoinsUnlock(cr, w, keys.value, ins, Built(ins, [], [], 0, 0, 0, 0));
    }
    if changeAddr.None? {
      return Err(BadChangeAddress);
    }
    var chScript := ScriptForAddress(cr, changeAddr.value);
    if chScript.None? {
      return Err(BadChangeAddress);
    }
    var marker: Bytes := [];
    if HasMarker(op) {
      var mScript := ScriptForAddress(cr, op.markerAddr);
      if mScript.None? {
        return Err(BadAddress);
      }
      marker := mScript.value;
    }
    var unlocks, err := SignInputs(cr, keys.value, ins);
    if err.Some? {
      return Err(err.value);
    }
    var b := TokenTx(op, ins, unlocks, marker, op.data.value, chScript.value);
    TokenIsSent(cr, w, wallet, op, keys.value, b, marker);
    r := Ok(b);
  }

  /** buildSignBroadcastToken, up to the broadcast.  From a wallet in order, a well-formed operation goes
      through exactly when its 64-bit need is positive and some selection of the wallet's coins covers it. */
  method SendToken(cr: Crypto, w: Wallet, wallet: seq<Coin>, op: Token) returns (r: Result)
    requires NoneCovers(wallet, TWO_63)
    ensures r.Ok? ==> TokenSent(cr, w, wallet, op, r.built)
    ensures TokenNeed(op) <= 0 || NoneCovers(wallet, TokenNeed(op)) ==> r.Err?
    ensures Healthy(cr, w, wallet) ==>
      (r.Ok? <==> WellFormed(cr, op) && TokenNeed(op) > 0 && !NoneCovers(wallet, TokenNeed(op)))
  {
    if op.fee < 0 {
      return Err(NegativeFee);
    }
    if op.data.None? {
      return Err(BadPayload);
    }
    var need := TokenNeed(op);
    var chosen := SelectCoins(wallet, need);
    if chosen.BadScript? {
      ghost var c :| c in wallet && c.script.None?;
      if Healthy(cr, w, wallet) {
        HealthyDecodes(cr, w, wallet, c);
      }
      return Err(UndecodedScript);
    }
    if chosen.Insufficient? {
      return Err(InsufficientFunds);
    }
    ChosenIffNeeded(chosen.coins, wallet, need);
    if chosen.coins == [] {
      return Err(InsufficientFunds);
    }
    ChosenCovers(wallet, need, chosen.coins);
    r := TokenWith(cr, w, wallet, chosen.coins, op);
  }
}
