/**
 The addresses a wallet can spend from, the key each one needs, and the three ways an input is signed: a
 key unlocks exactly the outputs that pay one of its own three addresses.
 */
module WalletKeys {
  import opened Common
  import opened Coins

  type Key = int

  /** What an address stands for; other kinds of address pay some other script. */
  datatype Dest =
    | WitnessPubKeyHash(hash: Bytes)
    | ScriptHash(hash: Bytes)
    | PubKeyHash(hash: Bytes)
    | Other(script: Bytes)

  /** The cryptographic and address code the wallet calls. */
  datatype Crypto = Crypto(
    pubKey: Key -> Bytes, hash160: Bytes -> Bytes, encode: Dest -> string, decode: string -> Option<Dest>)

  /** Hashes have twenty bytes, and an encoded address decodes to what it stands for. */
  ghost predicate Faithful(cr: Crypto) {
    && (forall b :: |cr.hash160(b)| == 20)
    && (forall d: Dest :: !d.Other? && |d.hash| == 20 ==> cr.decode(cr.encode(d)) == Some(d))
  }

  const KINDS: seq<string> := ["bech32", "segwit", "legacy"]

  /** The version-zero witness program of a key hash, also the redeem script of a nested output. */
  function WitnessProgram(h: Bytes): Bytes {
    [0x00, 0x14] + h
  }

  function DestFor(cr: Crypto, key: Key, t: string): Option<Dest> {
    var h := cr.hash160(cr.pubKey(key));
    if t == "bech32" then Some(WitnessPubKeyHash(h))
    else if t == "segwit" then Some(ScriptHash(cr.hash160(WitnessProgram(h))))
    else if t == "legacy" then Some(PubKeyHash(h))
    else None
  }

  /** deriveAddressFor */
  function DeriveAddressFor(cr: Crypto, key: Key, t: string): Option<string> {
    match DestFor(cr, key, t)
    case Some(d) => Some(cr.encode(d))
    case None => None
  }

  /** PayToAddrScript */
  function PayTo(d: Dest): Bytes {
    match d
    case WitnessPubKeyHash(h) => WitnessProgram(h)
    case ScriptHash(h) => [0xa9, 0x14] + h + [0x87]
    case PubKeyHash(h) => [0x76, 0xa9, 0x14] + h + [0x88, 0xac]
    case Other(s) => s
  }

  /** scriptForAddress */
  function ScriptForAddress(cr: Crypto, addr: string): Option<Bytes> {
    match cr.decode(addr)
    case Some(d) => Some(PayTo(d))
    case None => None
  }

  // ---------- Signing ----------

  /** What an input carries: the public key the signature is by, and the script the signature covers. */
  datatype Unlock =
    | Witness(pubKey: Bytes, code: Bytes)
    | Nested(redeem: Bytes, pubKey: Bytes, code: Bytes)
    | ScriptSig(pubKey: Bytes, code: Bytes)

  /** signInput: the script's shape decides how it is signed; the key is not compared with it. */
  function SignInput(cr: Crypto, s: Bytes, key: Key): Option<Unlock> {
    var pub := cr.pubKey(key);
    var program := WitnessProgram(cr.hash160(pub));
    if |s| == 22 && s[0] == 0x00 && s[1] == 0x14 then Some(Witness(pub, program))
    else if |s| == 23 && s[0] == 0xa9 && s[1] == 0x14 && s[22] == 0x87 then Some(Nested(program, pub, program))
    else if |s| == 25 && s[0] == 0x76 && s[1] == 0xa9 && s[2] == 0x14 && s[23] == 0x88 && s[24] == 0xac then
      Some(ScriptSig(pub, s))
    else None
  }

  /** The unlocking data fits an output that pays `d`, by the rules of Bitcoin: the hash committed to is that
      of the public key, or of a redeem script that commits to it (P2WPKH nested in P2SH, BIP 141), and the
      signature covers the script those rules ask for. */
  predicate Unlocks(cr: Crypto, d: Dest, u: Unlock) {
    match d
    case WitnessPubKeyHash(h) => u.Witness? && cr.hash160(u.pubKey) == h && u.code == WitnessProgram(h)
    case ScriptHash(h) =>
      && u.Nested? && cr.hash160(u.redeem) == h && u.redeem == WitnessProgram(cr.hash160(u.pubKey))
      && u.code == u.redeem
    case PubKeyHash(h) => u.ScriptSig? && cr.hash160(u.pubKey) == h && u.code == PayTo(d)
    case Other(_) => false
  }

  /** The three standard scripts have shapes of their own, so each falls into exactly one case of signInput
      and names one hash. */
  lemma PayToInjective(d: Dest, e: Dest)
    requires !d.Other? && !e.Other? && |d.hash| == 20 && |e.hash| == 20 && PayTo(d) == PayTo(e)
    ensures d == e
  {
    assert |PayTo(d)| == |PayTo(e)|;
    var k := if d.PubKeyHash? then 3 else 2;
    assert PayTo(d)[k..k + 20] == d.hash && PayTo(e)[k..k + 20] == e.hash;
  }

  /** A key unlocks a standard output exactly when the output pays one of the key's own three addresses. */
  lemma UnlocksIff(cr: Crypto, d: Dest, key: Key)
    requires Faithful(cr) && !d.Other? && |d.hash| == 20
    ensures SignInput(cr, PayTo(d), key).Some?
    ensures Unlocks(cr, d, SignInput(cr, PayTo(d), key).value) <==>
      exists t :: t in KINDS && DestFor(cr, key, t) == Some(d)
  {
    var h := cr.hash160(cr.pubKey(key));
    match d
    case WitnessPubKeyHash(_) => assert DestFor(cr, key, KINDS[0]) == Some(WitnessPubKeyHash(h));
    case ScriptHash(_) => assert DestFor(cr, key, KINDS[1]) == Some(ScriptHash(cr.hash160(WitnessProgram(h))));
    case PubKeyHash(_) => assert DestFor(cr, key, KINDS[2]) == Some(PubKeyHash(h));
  }

  // ---------- The wallet's addresses ----------

  /** The derived keys, absent where derivation fails. */
  datatype Wallet = Wallet(key: nat -> Option<Key>, nextIndex: nat)

  /** Index zero is there even before an address has been handed out. */
  function Count(w: Wallet): nat {
    if w.nextIndex < 1 then 1 else w.nextIndex
  }

  ghost predicate AllKeys(w: Wallet) {
    forall i :: 0 <= i < Count(w) ==> w.key(i).Some?
  }

  predicate Derives(cr: Crypto, w: Wallet, i: nat, addr: string) {
    && w.key(i).Some?
    && exists t :: t in KINDS && DeriveAddressFor(cr, w.key(i).value, t) == Some(addr)
  }

  ghost predicate IsVariant(cr: Crypto, w: Wallet, addr: string) {
    exists i :: 0 <= i < Count(w) && Derives(cr, w, i, addr)
  }

  /** walletAddressVariants: every index in all three types. */
  method WalletAddressVariants(cr: Crypto, w: Wallet) returns (r: Option<seq<string>>)
    ensures r.Some? <==> AllKeys(w)
    ensures r.Some? ==> |r.value| == 3 * Count(w) && forall a :: a in r.value <==> IsVariant(cr, w, a)
  {
    var out: seq<string> := [];
    var i := 0;
    while i < Count(w)
      invariant i <= Count(w) && |out| == 3 * i && forall j :: 0 <= j < i ==> w.key(j).Some?
      invariant forall a :: a in out <==> exists j :: 0 <= j < i && Derives(cr, w, j, a)
    {
      if w.key(i).None? {
        return None;
      }
      var priv := w.key(i).value;
      var more := seq(3, k requires 0 <= k < 3 => DeriveAddressFor(cr, priv, KINDS[k]).value);
      forall a ensures a in more <==> Derives(cr, w, i, a) {
        assert more == [more[0], more[1], more[2]];
      }
      out, i := out + more, i + 1;
    }
    r := Some(out);
  }

  /** addressIndexFor: the first index one of whose addresses this is. */
  method AddressIndexFor(cr: Crypto, w: Wallet, addr: string) returns (r: Option<nat>)
    ensures r.Some? ==> r.value < Count(w) && Derives(cr, w, r.value, addr)
    ensures r.Some? ==> forall j :: 0 <= j < r.value ==> w.key(j).Some? && !Derives(cr, w, j, addr)
    ensures AllKeys(w) ==> (r.Some? <==> IsVariant(cr, w, addr))
  {
    var i := 0;
    while i < Count(w)
      invariant i <= Count(w) && forall j :: 0 <= j < i ==> w.key(j).Some? && !Derives(cr, w, j, addr)
    {
      if w.key(i).None? {
        return None;
      }
      var t := 0;
      while t < 3
        invariant t <= 3 && forall k :: 0 <= k < t ==> DeriveAddressFor(cr, w.key(i).value, KINDS[k]) != Some(addr)
      {
        if DeriveAddressFor(cr, w.key(i).value, KINDS[t]) == Some(addr) {
          return Some(i);
        }
        t := t + 1;
      }
      i := i + 1;
    }
    r := None;
  }

  /** Whatever index the wallet finds for one of its addresses, that index's key unlocks the outputs that pay
      the address. */
  lemma FoundKeyUnlocks(cr: Crypto, w: Wallet, addr: string, i: nat)
    requires Faithful(cr) && Derives(cr, w, i, addr)
    ensures cr.decode(addr).Some? && ScriptForAddress(cr, addr) == Some(PayTo(cr.decode(addr).value))
    ensures var u := SignInput(cr, PayTo(cr.decode(addr).value), w.key(i).value);
      u.Some? && Unlocks(cr, cr.decode(addr).value, u.value)
  {
    var key := w.key(i).value;
    var t :| t in KINDS && DeriveAddressFor(cr, key, t) == Some(addr);
    var d := DestFor(cr, key, t).value;
    assert cr.decode(addr) == Some(d);
    UnlocksIff(cr, d, key);
  }
}
