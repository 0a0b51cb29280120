/** Finite decimals, as prices are: their text and its reading. */
module Decimals {
  function Pow10(k: nat): nat
    ensures Pow10(k) > 0
  {
    if k == 0 then 1 else 10 * Pow10(k - 1)
  }

  // The number n / 10^k.
  function Scaled(n: int, k: nat): real {
    n as real / Pow10(k) as real
  }

  ghost predicate IsDecimal(x: real) {
    exists n: int, k: nat :: x == Scaled(n, k)
  }

  lemma WholeIsDecimal(n: int)
    ensures IsDecimal(n as real)
  {
    assert n as real == Scaled(n, 0);
  }

  type Decimal = x: real | IsDecimal(x) witness (WholeIsDecimal(0); 0.0)

  // How decimals are written as text and read back.
  datatype Codec = Codec(show: Decimal -> string, parse: string -> Decimal)

  ghost predicate Faithful(c: Codec) {
    forall x: Decimal :: c.show(x) != "" && c.parse(c.show(x)) == x
  }

  // ---- a faithful codec -------------------------------------------------------------------

  function Digits(n: nat): string {
    var last := [('0' as int + n % 10) as char];
    if n < 10 then last else Digits(n / 10) + last
  }

  function DigitValue(c: char): nat {
    if '0' <= c <= '9' then c as int - '0' as int else 0
  }

  function Value(s: string): nat {
    if s == "" then 0 else 10 * Value(s[..|s| - 1]) + DigitValue(s[|s| - 1])
  }

  lemma {:induction false} DigitsReadBack(n: nat)
    ensures Digits(n) != "" && Value(Digits(n)) == n
    ensures forall c :: c in Digits(n) ==> '0' <= c <= '9'
  {
    var last := [('0' as int + n % 10) as char];
    if n < 10 {
      assert last[..0] == "";
    } else {
      DigitsReadBack(n / 10);
      assert Digits(n)[..|Digits(n)| - 1] == Digits(n / 10);
    }
  }

  // Scientific notation with a non-positive exponent: 952E-4 is 0.0952.
  function Notation(n: int, k: nat): string {
    (if n < 0 then "-" else "") + Digits(if n < 0 then -n else n) + "E-" + Digits(k)
  }

  function Exponent(s: string): (i: nat)
    ensures i <= |s|
    ensures forall j :: 0 <= j < i ==> s[j] != 'E'
    ensures i < |s| ==> s[i] == 'E'
  {
    if s == "" || s[0] == 'E' then 0 else 1 + Exponent(s[1..])
  }

  function ReadUnsigned(s: string): (int, nat) {
    var i := Exponent(s);
    (Value(s[..i]), if i + 2 <= |s| then Value(s[i + 2..]) else 0)
  }

  function ReadParts(s: string): (int, nat) {
    if s != "" && s[0] == '-' then
      var (n, k) := ReadUnsigned(s[1..]);
      (-n, k)
    else ReadUnsigned(s)
  }

  function Read(s: string): Decimal {
    var (n, k) := ReadParts(s);
    assert IsDecimal(Scaled(n, k));
    Scaled(n, k)
  }

  lemma UnsignedReadsBack(n: nat, k: nat)
    ensures ReadUnsigned(Digits(n) + "E-" + Digits(k)) == (n, k)
  {
    DigitsReadBack(n);
    DigitsReadBack(k);
    var digits := Digits(n);
    var s := digits + "E-" + Digits(k);
    assert forall j :: 0 <= j < |digits| ==> s[j] == digits[j] && s[j] in digits;
    assert s[|digits|] == 'E' && Exponent(s) == |digits|;
    assert s[..|digits|] == digits && s[|digits| + 2..] == Digits(k);
  }

  lemma NotationReadsBack(n: int, k: nat)
    ensures Notation(n, k) != "" && ReadParts(Notation(n, k)) == (n, k)
  {
    hide ReadUnsigned, Digits;
    var size := if n < 0 then -n else n;
    UnsignedReadsBack(size, k);
    DigitsReadBack(size);
    var rest := Digits(size) + "E-" + Digits(k);
    if n < 0 {
      assert Notation(n, k) == "-" + rest && ("-" + rest)[1..] == rest;
    } else {
      assert Notation(n, k) == rest;
      assert rest[0] == Digits(size)[0] && Digits(size)[0] in Digits(size);
    }
  }

  // Some way of writing a decimal as a whole number over a power of ten.
  ghost function Parts(x: Decimal): (p: (int, nat))
    ensures x == Scaled(p.0, p.1)
  {
    assert IsDecimal(x);
    var n: int, k: nat :| x == Scaled(n, k);
    (n, k)
  }

  ghost function Show(x: Decimal): string {
    Notation(Parts(x).0, Parts(x).1)
  }

  /** Decimals can be written as text without loss: there is a faithful codec. */
  lemma FaithfulCodecExists() returns (c: Codec)
    ensures Faithful(c)
  {
    c := Codec((x: Decimal) => Show(x), (s: string) => Read(s));
    forall x: Decimal
      ensures c.show(x) != "" && c.parse(c.show(x)) == x
    {
      NotationReadsBack(Parts(x).0, Parts(x).1);
    }
  }
}
