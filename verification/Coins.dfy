/**
 Coin selection for a payment: coins sorted by value, largest first and otherwise in their old order, then
 taken until the need is covered.  No smaller selection covers the need, and selection fails only when
 none at all does.
 */
module Coins {
  import opened Common

  newtype Byte = x: int | 0 <= x < 256
  type Bytes = seq<Byte>

  /** An unspent output; the script is absent when its hexadecimal text does not decode. */
  datatype Coin = Coin(txid: string, index: int, value: int, script: Option<Bytes>, address: string)

  function Sum(cs: seq<Coin>): int {
    if cs == [] then 0 else Sum(cs[..|cs| - 1]) + cs[|cs| - 1].value
  }

  /** A selection of coins: no coin more often than the wallet has it. */
  ghost predicate From(sub: seq<Coin>, cs: seq<Coin>) {
    multiset(sub) <= multiset(cs)
  }

  // ---------- Stable sort ----------

  predicate Descending(cs: seq<Coin>) {
    forall i, j :: 0 <= i < j < |cs| ==> cs[i].value >= cs[j].value
  }

  function Insert(c: Coin, cs: seq<Coin>): seq<Coin> {
    if cs == [] || cs[0].value <= c.value then [c] + cs else [cs[0]] + Insert(c, cs[1..])
  }

  /** sort.SliceStable with the larger value first. */
  function Sort(cs: seq<Coin>): seq<Coin> {
    if cs == [] then [] else Insert(cs[0], Sort(cs[1..]))
  }

  /** The coins of one value, in order. */
  function OfValue(cs: seq<Coin>, v: int): seq<Coin> {
    if cs == [] then [] else (if cs[0].value == v then [cs[0]] else []) + OfValue(cs[1..], v)
  }

  lemma {:induction false} InsertAdds(c: Coin, cs: seq<Coin>)
    ensures multiset(Insert(c, cs)) == multiset(cs) + multiset{c}
    decreases |cs|
  {
    if cs != [] && cs[0].value > c.value {
      InsertAdds(c, cs[1..]);
      assert cs == [cs[0]] + cs[1..];
    }
  }

  lemma {:induction false} InsertIsDescending(c: Coin, cs: seq<Coin>)
    requires Descending(cs)
    ensures Descending(Insert(c, cs))
    ensures forall i :: 0 <= i < |Insert(c, cs)| ==> Insert(c, cs)[i] == c || Insert(c, cs)[i] in cs
    decreases |cs|
  {
    if cs != [] && cs[0].value > c.value {
      InsertIsDescending(c, cs[1..]);
    }
  }

  lemma OfValueFirst(c: Coin, cs: seq<Coin>, v: int)
    ensures OfValue([c] + cs, v) == (if c.value == v then [c] else []) + OfValue(cs, v)
  {
    assert ([c] + cs)[1..] == cs;
  }

  lemma {:induction false} InsertKeepsOrder(c: Coin, cs: seq<Coin>, v: int)
    ensures OfValue(Insert(c, cs), v) == (if c.value == v then [c] else []) + OfValue(cs, v)
    decreases |cs|
  {
    if cs == [] || cs[0].value <= c.value {
      OfValueFirst(c, cs, v);
    } else {
      var rest := Insert(c, cs[1..]);
      InsertKeepsOrder(c, cs[1..], v);
      OfValueFirst(cs[0], rest, v);
      if c.value == v {
        assert OfValue(cs, v) == OfValue(cs[1..], v);
      } else {
        assert OfValue(rest, v) == OfValue(cs[1..], v);
      }
    }
  }

  /** The sorted list is descending, holds the same coins, and keeps the order of coins of equal value. */
  lemma {:induction false} SortIsStable(cs: seq<Coin>)
    ensures Descending(Sort(cs)) && multiset(Sort(cs)) == multiset(cs)
    ensures forall v :: OfValue(Sort(cs), v) == OfValue(cs, v)
    decreases |cs|
  {
    if cs == [] {
    } else {
      var rest := Sort(cs[1..]);
      SortIsStable(cs[1..]);
      InsertAdds(cs[0], rest);
      InsertIsDescending(cs[0], rest);
      assert multiset(cs) == multiset{cs[0]} + multiset(cs[1..]) by {
        assert cs == [cs[0]] + cs[1..];
      }
      forall v ensures OfValue(Sort(cs), v) == OfValue(cs, v) {
        InsertKeepsOrder(cs[0], rest, v);
      }
    }
  }

  // ---------- The largest coins are worth most ----------

  lemma {:induction false} SumOfParts(a: seq<Coin>, b: seq<Coin>)
    ensures Sum(a + b) == Sum(a) + Sum(b)
    decreases |b|
  {
    if b == [] {
      assert a + b == a;
    } else {
      SumOfParts(a, b[..|b| - 1]);
      assert (a + b)[..|a + b| - 1] == a + b[..|b| - 1];
    }
  }

  lemma SumOfFirst(cs: seq<Coin>, n: nat)
    requires n < |cs|
    ensures Sum(cs[..n + 1]) == Sum(cs[..n]) + cs[n].value
  {
    assert cs[..n + 1][..n] == cs[..n];
  }

  lemma SumWithout(cs: seq<Coin>, i: nat)
    requires i < |cs|
    ensures Sum(cs) == Sum(cs[..i] + cs[i + 1..]) + cs[i].value
  {
    assert Sum(cs) == Sum(cs[..i + 1]) + Sum(cs[i + 1..]) by {
      assert cs == cs[..i + 1] + cs[i + 1..];
      SumOfParts(cs[..i + 1], cs[i + 1..]);
    }
    SumOfFirst(cs, i);
    SumOfParts(cs[..i], cs[i + 1..]);
  }

  lemma SizeFrom(sub: seq<Coin>, cs: seq<Coin>)
    requires From(sub, cs)
    ensures |sub| <= |cs|
  {
    assert |multiset(sub)| == |sub| && |multiset(cs)| == |cs|;
    assert multiset(cs) == multiset(sub) + (multiset(cs) - multiset(sub));
  }

  /** A selection without the last coin is one from the others. */
  lemma FromOthers(sub: seq<Coin>, cs: seq<Coin>)
    requires cs != [] && From(sub, cs) && cs[|cs| - 1] !in sub
    ensures From(sub, cs[..|cs| - 1])
  {
    var n := |cs| - 1;
    assert cs == cs[..n] + [cs[n]];
    assert multiset(cs) == multiset(cs[..n]) + multiset{cs[n]};
  }

  /** Nor does taking it out leave anything else. */
  lemma FromOthersWithout(sub: seq<Coin>, cs: seq<Coin>, i: nat)
    requires cs != [] && From(sub, cs) && i < |sub| && sub[i] == cs[|cs| - 1]
    ensures From(sub[..i] + sub[i + 1..], cs[..|cs| - 1])
  {
    var n := |cs| - 1;
    assert cs == cs[..n] + [cs[n]];
    assert multiset(cs) == multiset(cs[..n]) + multiset{cs[n]};
    assert sub == sub[..i] + [sub[i]] + sub[i + 1..];
    var rest := multiset(sub[..i] + sub[i + 1..]);
    assert multiset(sub) == rest + multiset{cs[n]};
    forall c ensures rest[c] <= multiset(cs[..n])[c] {
      assert multiset(sub)[c] <= multiset(cs)[c];
    }
  }

  /** No selection is worth more than as many of the largest coins. */
  lemma {:induction false} LargestAreWorthMost(sub: seq<Coin>, cs: seq<Coin>)
    requires Descending(cs) && From(sub, cs)
    ensures |sub| <= |cs| && Sum(sub) <= Sum(cs[..|sub|])
    decreases |cs|
  {
    SizeFrom(sub, cs);
    if cs == [] {
    } else {
      var n := |cs| - 1;
      if cs[n] in sub {
        var i :| 0 <= i < |sub| && sub[i] == cs[n];
        var rest := sub[..i] + sub[i + 1..];
        FromOthersWithout(sub, cs, i);
        LargestAreWorthMost(rest, cs[..n]);
        SumWithout(sub, i);
        SumOfFirst(cs, |rest|);
        assert cs[..n][..|rest|] == cs[..|rest|];
      } else {
        FromOthers(sub, cs);
        LargestAreWorthMost(sub, cs[..n]);
        assert cs[..n][..|sub|] == cs[..|sub|];
      }
    }
  }

  // ---------- Selection ----------

  datatype Choice = Chosen(coins: seq<Coin>) | Insufficient | BadScript

  /** The coins cover the need, and no smaller selection from the wallet does. */
  ghost predicate Fewest(coins: seq<Coin>, wallet: seq<Coin>, need: int) {
    && From(coins, wallet) && Sum(coins) >= need
    && forall sub :: From(sub, wallet) && Sum(sub) >= need ==> |coins| <= |sub|
  }

  /** None of the first `n` lists of largest coins, shortest first, covers the need. */
  ghost predicate Short(sorted: seq<Coin>, need: int, n: nat) {
    forall m :: 0 <= m < n && m <= |sorted| ==> Sum(sorted[..m]) < need
  }

  ghost predicate NoneCovers(wallet: seq<Coin>, need: int) {
    forall sub :: From(sub, wallet) ==> Sum(sub) < need
  }

  lemma ShortSelections(wallet: seq<Coin>, need: int, n: nat, sub: seq<Coin>)
    requires Short(Sort(wallet), need, n) && From(sub, wallet) && |sub| < n
    ensures Sum(sub) < need
  {
    SortIsStable(wallet);
    LargestAreWorthMost(sub, Sort(wallet));
  }

  lemma LargestIsFewest(wallet: seq<Coin>, need: int, n: nat)
    requires n <= |Sort(wallet)| && Sum(Sort(wallet)[..n]) >= need && Short(Sort(wallet), need, n)
    ensures Fewest(Sort(wallet)[..n], wallet, need)
  {
    var sorted := Sort(wallet);
    SortIsStable(wallet);
    assert sorted == sorted[..n] + sorted[n..];
    assert multiset(sorted) == multiset(sorted[..n]) + multiset(sorted[n..]);
    forall sub | From(sub, wallet) && Sum(sub) >= need ensures n <= |sub| {
      if |sub| < n {
        ShortSelections(wallet, need, n, sub);
      }
    }
  }

  lemma AllShort(wallet: seq<Coin>, need: int)
    requires Short(Sort(wallet), need, |Sort(wallet)| + 1)
    ensures NoneCovers(wallet, need)
  {
    SortIsStable(wallet);
    forall sub | From(sub, wallet) ensures Sum(sub) < need {
      LargestAreWorthMost(sub, Sort(wallet));
    }
  }

  predicate NoneNegative(cs: seq<Coin>) {
    forall i :: 0 <= i < |cs| ==> cs[i].value >= 0
  }

  lemma {:induction false} SumFrom(sub: seq<Coin>, cs: seq<Coin>)
    requires From(sub, cs) && NoneNegative(cs)
    ensures Sum(sub) <= Sum(cs)
    decreases |cs|
  {
    if cs == [] {
      SizeFrom(sub, cs);
    } else {
      var n := |cs| - 1;
      if cs[n] in sub {
        var i :| 0 <= i < |sub| && sub[i] == cs[n];
        FromOthersWithout(sub, cs, i);
        SumFrom(sub[..i] + sub[i + 1..], cs[..n]);
        SumWithout(sub, i);
      } else {
        FromOthers(sub, cs);
        SumFrom(sub, cs[..n]);
      }
    }
  }

  /** Some selection covers the need exactly when the whole wallet does. */
  lemma WalletCoversIff(wallet: seq<Coin>, need: int)
    requires NoneNegative(wallet)
    ensures NoneCovers(wallet, need) <==> Sum(wallet) < need
  {
    assert From(wallet, wallet);
    forall sub | From(sub, wallet) ensures Sum(sub) <= Sum(wallet) {
      SumFrom(sub, wallet);
    }
  }

  lemma SameCoins(wallet: seq<Coin>, c: Coin)
    ensures c in Sort(wallet) <==> c in wallet
  {
    SortIsStable(wallet);
    assert c in multiset(Sort(wallet)) <==> c in multiset(wallet);
  }

  predicate Decoded(cs: seq<Coin>) {
    forall i :: 0 <= i < |cs| ==> cs[i].script.Some?
  }

  /** The loop over the sorted coins: how many are taken, and whether one of those did not decode. */
  method TakeLargest(sorted: seq<Coin>, need: int) returns (n: nat, totalIn: int, bad: bool)
    ensures n <= |sorted| && totalIn == Sum(sorted[..n]) && Short(sorted, need, n)
    ensures bad ==> n < |sorted| && sorted[n].script.None?
    ensures !bad ==> Decoded(sorted[..n]) && (totalIn >= need || n == |sorted|)
  {
    n, totalIn, bad := 0, 0, false;
    while n < |sorted|
      invariant n <= |sorted| && totalIn == Sum(sorted[..n]) && Short(sorted, need, n)
      invariant Decoded(sorted[..n])
    {
      if totalIn >= need {
        break;
      }
      if sorted[n].script.None? {
        bad := true;
        return;
      }
      SumOfFirst(sorted, n);
      totalIn := totalIn + sorted[n].value;
      n := n + 1;
    }
  }

  /** Coin selection of Send and of the token pipeline. */
  method SelectCoins(wallet: seq<Coin>, need: int) returns (r: Choice)
    ensures r.Chosen? ==> Fewest(r.coins, wallet, need) && r.coins <= Sort(wallet) && Decoded(r.coins)
    ensures r.Insufficient? ==> NoneCovers(wallet, need)
    ensures r.BadScript? ==> exists c :: c in wallet && c.script.None?
    ensures Decoded(wallet) ==> (r.Insufficient? <==> NoneCovers(wallet, need))
  {
    var sorted := Sort(wallet);
    var n, totalIn, bad := TakeLargest(sorted, need);
    if bad {
      SameCoins(wallet, sorted[n]);
      r := BadScript;
    } else if totalIn < need {
      assert Short(sorted, need, n + 1);
      AllShort(wallet, need);
      r := Insufficient;
    } else {
      LargestIsFewest(wallet, need, n);
      r := Chosen(sorted[..n]);
    }
  }
}
