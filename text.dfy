/** Text primitives the client relies on: bytes, the Latin-1 conversion of a
    QString, the decimal rendering of an int (QString::number) and the
    ordering of QString keys (the order a QMap iterates in). */
module Text {

  /** One octet of a QByteArray. */
  type Byte = b: int | 0 <= b < 256

  type Bytes = seq<Byte>

  // ---------------------------------------------------------------------------
  // Latin-1 (QString::toLatin1)
  // ---------------------------------------------------------------------------

  /** The bytes one character contributes: its code when it fits in Latin-1,
      otherwise one '?' per UTF-16 code unit (two for a character outside the
      Basic Multilingual Plane). */
  function Latin1Char(c: char): (b: Bytes)
    ensures 1 <= |b| <= 2
    ensures (c as int < 256) <==> (b == [c as int])
    ensures c as int >= 256 ==> forall i | 0 <= i < |b| :: b[i] == 0x3F
    ensures |b| == 2 <==> c as int >= 0x1_0000
  {
    if c as int < 256 then [c as int]
    else if c as int < 0x1_0000 then [0x3F]
    else [0x3F, 0x3F]
  }

  function Latin1(s: string): (b: Bytes)
    ensures |s| <= |b| <= 2 * |s|
    decreases |s|
  {
    if s == [] then [] else Latin1Char(s[0]) + Latin1(s[1..])
  }

  predicate IsLatin1(s: string) {
    forall i | 0 <= i < |s| :: s[i] as int < 256
  }

  /** On text that fits in Latin-1 the conversion is the identity on codes. */
  lemma {:induction false} Latin1OfLatin1Text(s: string)
    requires IsLatin1(s)
    ensures |Latin1(s)| == |s|
    ensures forall i | 0 <= i < |s| :: Latin1(s)[i] == s[i] as int
  {
    if s != [] {
      Latin1OfLatin1Text(s[1..]);
    }
  }

  lemma {:induction false} Latin1Append(s: string, t: string)
    ensures Latin1(s + t) == Latin1(s) + Latin1(t)
  {
    if s == [] {
      assert s + t == t;
    } else {
      assert (s + t)[1..] == s[1..] + t;
      Latin1Append(s[1..], t);
    }
  }

  // ---------------------------------------------------------------------------
  // Decimal rendering (QString::number(int))
  // ---------------------------------------------------------------------------

  predicate IsDigit(c: char) {
    '0' <= c <= '9'
  }

  predicate AllDigits(s: string) {
    forall i | 0 <= i < |s| :: IsDigit(s[i])
  }

  function DigitChar(d: int): (c: char)
    requires 0 <= d < 10
    ensures IsDigit(c) && c as int - '0' as int == d
  {
    ('0' as int + d) as char
  }

  /** Shortest decimal rendering of a natural number: digits only, and no
      leading zero unless the number is zero. */
  function NatDecimal(n: nat): (s: string)
    ensures |s| > 0 && AllDigits(s)
    ensures s[0] == '0' ==> n == 0
    decreases n
  {
    if n < 10 then [DigitChar(n)] else NatDecimal(n / 10) + [DigitChar(n % 10)]
  }

  /** QString::number for an int: a minus sign for negative values. */
  function Decimal(n: int): (s: string)
    ensures |s| > 0
    ensures forall i | 0 <= i < |s| :: IsDigit(s[i]) || (i == 0 && s[i] == '-' && n < 0)
  {
    if n < 0 then "-" + NatDecimal(-n) else NatDecimal(n)
  }

  /** Reference reading of a digit string, most significant digit first. */
  function ParseNat(s: string): nat
    requires |s| > 0 && AllDigits(s)
    decreases |s|
  {
    var last := s[|s| - 1] as int - '0' as int;
    if |s| == 1 then last else ParseNat(s[..|s| - 1]) * 10 + last
  }

  function ParseDecimal(s: string): int
    requires |s| > 0
    requires s[0] == '-' ==> |s| > 1 && AllDigits(s[1..])
    requires s[0] != '-' ==> AllDigits(s)
  {
    if s[0] == '-' then -(ParseNat(s[1..]) as int) else ParseNat(s)
  }

  lemma {:induction false} ParseNatDecimal(n: nat)
    ensures ParseNat(NatDecimal(n)) == n
    decreases n
  {
    if n >= 10 {
      var s := NatDecimal(n);
      assert s[..|s| - 1] == NatDecimal(n / 10);
      ParseNatDecimal(n / 10);
    }
  }

  /** Reading back the rendering of any int gives the int. */
  lemma DecimalRoundTrip(n: int)
    ensures ParseDecimal(Decimal(n)) == n
  {
    if n < 0 {
      assert Decimal(n)[1..] == NatDecimal(-n);
      ParseNatDecimal(-n);
    } else {
      ParseNatDecimal(n);
    }
  }

  lemma DecimalInjective(m: int, n: int)
    requires Decimal(m) == Decimal(n)
    ensures m == n
  {
    DecimalRoundTrip(m);
    DecimalRoundTrip(n);
  }

  // ---------------------------------------------------------------------------
  // QString ordering (QString::operator<), the key order of a QMap
  // ---------------------------------------------------------------------------

  /** Lexicographic order on characters; a proper prefix comes first. */
  predicate Less(a: string, b: string)
    decreases |a|
  {
    if |b| == 0 then false
    else if |a| == 0 then true
    else if a[0] != b[0] then a[0] < b[0]
    else Less(a[1..], b[1..])
  }

  lemma {:induction false} LessIrreflexive(a: string)
    ensures !Less(a, a)
    decreases |a|
  {
    if |a| > 0 {
      LessIrreflexive(a[1..]);
    }
  }

  lemma {:induction false} LessTransitive(a: string, b: string, c: string)
    requires Less(a, b) && Less(b, c)
    ensures Less(a, c)
    decreases |a|
  {
    if |a| > 0 && a[0] == b[0] && b[0] == c[0] {
      LessTransitive(a[1..], b[1..], c[1..]);
    }
  }

  lemma {:induction false} LessTotal(a: string, b: string)
    ensures a == b || Less(a, b) || Less(b, a)
    decreases |a|
  {
    if |a| > 0 && |b| > 0 && a[0] == b[0] {
      LessTotal(a[1..], b[1..]);
      if a[1..] == b[1..] {
        assert a == [a[0]] + a[1..] && b == [b[0]] + b[1..];
      }
    }
  }

  lemma LessAsymmetric(a: string, b: string)
    requires Less(a, b)
    ensures !Less(b, a)
  {
    if Less(b, a) {
      LessTransitive(a, b, a);
      LessIrreflexive(a);
    }
  }

  predicate IsLeast(m: string, s: set<string>) {
    m in s && forall x | x in s :: x == m || Less(m, x)
  }

  /** Every non-empty finite set of keys has a least element, so a QMap can be
      walked in ascending key order. */
  lemma {:induction false} LeastExists(s: set<string>)
    requires s != {}
    ensures exists m :: IsLeast(m, s)
    decreases |s|
  {
    var y :| y in s;
    if s != {y} {
      var rest := s - {y};
      LeastExists(rest);
      var m :| IsLeast(m, rest);
      LessTotal(m, y);
      if Less(m, y) {
        assert IsLeast(m, s);
      } else {
        forall x | x in s
          ensures x == y || Less(y, x)
        {
          if x != y && x != m {
            LessTransitive(y, m, x);
          }
        }
        assert IsLeast(y, s);
      }
    } else {
      assert IsLeast(y, s);
    }
  }
}
