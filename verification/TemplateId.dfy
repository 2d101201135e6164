/**
 The identifier of a block template: the previous block's hash, a dash, and the time the template was made in
 seconds.  It decodes to what was encoded exactly for times that are not negative.
 */
module TemplateId {
  import opened Common

  const HASH_LENGTH: nat := 64
  const MAX_INT64: int := 0x7fff_ffff_ffff_ffff

  predicate IsDigit(c: char) {
    '0' <= c <= '9'
  }

  predicate IsHex(c: char) {
    IsDigit(c) || 'a' <= c <= 'f' || 'A' <= c <= 'F'
  }

  function Lower(c: char): char {
    if 'A' <= c <= 'F' then c - 'A' + 'a' else c
  }

  /** The text of a hash. */
  predicate IsHash(h: string) {
    |h| == HASH_LENGTH && forall i :: 0 <= i < |h| ==> IsHex(h[i]) && Lower(h[i]) == h[i]
  }

  /** NewHashFromStr, on the text of hashes: shorter texts are filled up with zeros on the left. */
  function ParseHash(s: string): Option<string> {
    if |s| <= HASH_LENGTH && forall i :: 0 <= i < |s| ==> IsHex(s[i]) then
      Some(seq(HASH_LENGTH - |s|, _ => '0') + seq(|s|, i requires 0 <= i < |s| => Lower(s[i])))
    else None
  }

  // ---------- Decimal numbers ----------

  function Digit(n: nat): char
    requires n < 10
  {
    '0' + n as char
  }

  function Decimal(n: nat): string {
    if n < 10 then [Digit(n)] else Decimal(n / 10) + [Digit(n % 10)]
  }

  function Value(s: string): Option<int> {
    if s == [] then Some(0)
    else
      var last := s[|s| - 1];
      match Value(s[..|s| - 1])
      case Some(n) => if IsDigit(last) then Some(10 * n + (last as int - '0' as int)) else None
      case None => None
  }

  /** The format verb for integers, and ParseInt in base ten. */
  function Format(t: int): string {
    if t < 0 then "-" + Decimal(-t) else Decimal(t)
  }

  function ParseMagnitude(s: string, limit: int): Option<int> {
    if s == [] then None
    else
      match Value(s)
      case Some(n) => if n <= limit then Some(n) else None
      case None => None
  }

  function ParseInt(s: string): Option<int> {
    if s != [] && s[0] == '-' then
      match ParseMagnitude(s[1..], MAX_INT64 + 1) case Some(n) => Some(-n) case None => None
    else if s != [] && s[0] == '+' then
      match ParseMagnitude(s[1..], MAX_INT64) case Some(n) => Some(n) case None => None
    else
      match ParseMagnitude(s, MAX_INT64) case Some(n) => Some(n) case None => None
  }

  lemma {:induction false} DecimalIsRead(n: nat)
    ensures Decimal(n) != [] && Value(Decimal(n)) == Some(n)
    ensures forall i :: 0 <= i < |Decimal(n)| ==> IsDigit(Decimal(n)[i])
  {
    if n >= 10 {
      DecimalIsRead(n / 10);
      assert Decimal(n)[..|Decimal(n)| - 1] == Decimal(n / 10);
    } else {
      assert Decimal(n)[..0] == [];
      assert Value(Decimal(n)[..0]) == Some(0);
    }
  }

  // ---------- Splitting ----------

  /** strings.Split at dashes. */
  function Split(s: string): (fields: seq<string>)
    ensures fields != []
  {
    if s == [] then [""]
    else if s[0] == '-' then [""] + Split(s[1..])
    else
      var rest := Split(s[1..]);
      [[s[0]] + rest[0]] + rest[1..]
  }

  predicate NoDash(s: string) {
    forall i :: 0 <= i < |s| ==> s[i] != '-'
  }

  lemma {:induction false} SplitPlain(s: string)
    requires NoDash(s)
    ensures Split(s) == [s]
    decreases |s|
  {
    if s == [] {
    } else {
      SplitPlain(s[1..]);
      assert s == [s[0]] + s[1..];
    }
  }

  lemma {:induction false} SplitAfter(a: string, b: string)
    requires NoDash(a)
    ensures Split(a + "-" + b) == [a] + Split(b)
    decreases |a|
  {
    var s := a + "-" + b;
    if a == [] {
      assert s[1..] == b;
    } else {
      SplitAfter(a[1..], b);
      assert s[1..] == a[1..] + "-" + b;
      assert a == [a[0]] + a[1..];
    }
  }

  // ---------- Template identifiers ----------

  /** encodeTemplateID */
  function Encode(prevHash: string, lastGenerated: int): string {
    prevHash + "-" + Format(lastGenerated)
  }

  /** decodeTemplateID */
  function Decode(id: string): Option<(string, int)> {
    var fields := Split(id);
    if |fields| != 2 then None
    else
      match ParseHash(fields[0])
      case None => None
      case Some(h) =>
        match ParseInt(fields[1])
        case None => None
        case Some(t) => Some((h, t))
  }

  lemma HashIsRead(h: string)
    requires IsHash(h)
    ensures NoDash(h) && ParseHash(h) == Some(h)
  {
    var zeros: string := seq(HASH_LENGTH - |h|, _ => '0');
    var lowered := seq(|h|, i requires 0 <= i < |h| => Lower(h[i]));
    assert zeros == [] && lowered == h;
    assert zeros + lowered == h;
  }

  lemma FieldsOfId(h: string, t: int)
    requires IsHash(h)
    ensures t >= 0 ==> Split(Encode(h, t)) == [h, Decimal(t)]
    ensures t < 0 ==> Split(Encode(h, t)) == [h, "", Decimal(-t)]
  {
    HashIsRead(h);
    SplitAfter(h, Format(t));
    if t >= 0 {
      DecimalIsRead(t);
      SplitPlain(Decimal(t));
    } else {
      DecimalIsRead(-t);
      SplitAfter("", Decimal(-t));
      assert "" + "-" + Decimal(-t) == Format(t);
      SplitPlain(Decimal(-t));
    }
  }

  /** An identifier gives back its hash and its 64-bit time if and only if the time is not negative: the sign
      of a negative one counts as another dash. */
  lemma RoundTripIff(h: string, t: int)
    requires IsHash(h) && -MAX_INT64 - 1 <= t <= MAX_INT64
    ensures Decode(Encode(h, t)) == Some((h, t)) <==> t >= 0
    ensures t < 0 ==> Decode(Encode(h, t)) == None
  {
    FieldsOfId(h, t);
    HashIsRead(h);
    if t >= 0 {
      DecimalIsRead(t);
    }
  }
}
