/**
 * Dotted-decimal text of an IPv4 address, as `inet_ntop(AF_INET, ...)` writes it for
 * `get_recv_addr` and `get_send_addr`, together with the parser that inverts it.
 *
 * An address is kept as the four bytes of its `in_addr` in memory order. The transport
 * never does arithmetic on an address: the DPDK context writes it in network byte order
 * and `inet_ntop` prints the bytes in the order they lie in memory, so the host's
 * endianness plays no part.
 */
module Ipv4Text {
  import opened Wrappers

  type Byte = x: int | 0 <= x < 256
  type IPv4 = s: seq<Byte> | |s| == 4 witness [0, 0, 0, 0]

  /** Size of the buffer `get_recv_addr` and `get_send_addr` give `inet_ntop`, terminator included. */
  const INET_ADDRSTRLEN: nat := 16

  predicate IsDigit(c: char) { '0' <= c <= '9' }

  predicate AllDigits(s: string) { forall i :: 0 <= i < |s| ==> IsDigit(s[i]) }

  function DigitChar(d: nat): (c: char)
    requires d < 10
    ensures IsDigit(c) && c as int - '0' as int == d
  {
    ('0' as int + d) as char
  }

  function DigitValue(c: char): (d: nat)
    requires IsDigit(c)
    ensures d < 10 && DigitChar(d) == c
  {
    c as int - '0' as int
  }

  /** Decimal digits of `n`, most significant first, without leading zeros. */
  function Decimal(n: nat): (s: string)
    ensures 1 <= |s| && AllDigits(s)
    ensures n < 10 <==> |s| == 1
    ensures n < 100 ==> |s| <= 2
    ensures n < 1000 ==> |s| <= 3
    ensures |s| > 1 ==> s[0] != '0'
  {
    if n < 10 then [DigitChar(n)] else Decimal(n / 10) + [DigitChar(n % 10)]
  }

  /** The number a string of decimal digits denotes. */
  function DecimalValue(s: string): nat
    requires AllDigits(s)
  {
    if s == [] then 0 else 10 * DecimalValue(s[..|s| - 1]) + DigitValue(s[|s| - 1])
  }

  /** The text of one octet as `inet_ntop` prints it: one to three digits, no leading zero. */
  predicate Canonical(t: string)
  {
    1 <= |t| <= 3 && AllDigits(t) && (|t| > 1 ==> t[0] != '0')
  }

  lemma {:induction false} DecimalValueOfDecimal(n: nat)
    ensures DecimalValue(Decimal(n)) == n
  {
    if n >= 10 {
      var s := Decimal(n);
      assert s[..|s| - 1] == Decimal(n / 10);
      DecimalValueOfDecimal(n / 10);
    }
  }

  lemma {:induction false} LeadingDigitPositive(t: string)
    requires 1 <= |t| && AllDigits(t) && t[0] != '0'
    ensures DecimalValue(t) >= 1
  {
    if |t| > 1 {
      LeadingDigitPositive(t[..|t| - 1]);
    }
  }

  lemma {:induction false} DecimalOfDecimalValue(t: string)
    requires 1 <= |t| && AllDigits(t) && (|t| > 1 ==> t[0] != '0')
    ensures Decimal(DecimalValue(t)) == t
  {
    var p := t[..|t| - 1];
    if |t| > 1 {
      assert p[0] == t[0];
      LeadingDigitPositive(p);
      DecimalOfDecimalValue(p);
      assert t == p + [t[|t| - 1]];
    }
  }

  function OctetText(b: Byte): (t: string)
    ensures Canonical(t) && DecimalValue(t) == b
  {
    DecimalValueOfDecimal(b);
    Decimal(b)
  }

  /** `a` in dotted-decimal form, e.g. "10.0.0.5". */
  function FormatIPv4(a: IPv4): (s: string)
    ensures 7 <= |s| <= 15 && |s| < INET_ADDRSTRLEN
  {
    OctetText(a[0]) + "." + OctetText(a[1]) + "." + OctetText(a[2]) + "." + OctetText(a[3])
  }

  /** `s` cut at every '.', so a text with k dots has k + 1 fields. */
  function Fields(s: string): (r: seq<string>)
    ensures 1 <= |r|
  {
    if s == [] then [[]]
    else
      var rest := Fields(s[1..]);
      if s[0] == '.' then [[]] + rest else [[s[0]] + rest[0]] + rest[1..]
  }

  function ParseOctet(t: string): Option<Byte>
  {
    if Canonical(t) && DecimalValue(t) < 256 then Some(DecimalValue(t)) else None
  }

  /** The address whose dotted-decimal text is `s`, if `s` is one. */
  function ParseIPv4(s: string): Option<IPv4>
  {
    var f := Fields(s);
    if |f| == 4 && ParseOctet(f[0]).Some? && ParseOctet(f[1]).Some?
                && ParseOctet(f[2]).Some? && ParseOctet(f[3]).Some?
    then Some([ParseOctet(f[0]).value, ParseOctet(f[1]).value,
               ParseOctet(f[2]).value, ParseOctet(f[3]).value])
    else None
  }

  lemma {:induction false} FieldsOfDotless(a: string)
    requires '.' !in a
    ensures Fields(a) == [a]
  {
    if a != [] {
      FieldsOfDotless(a[1..]);
      assert a == [a[0]] + a[1..];
    }
  }

  lemma {:induction false} FieldsSplit(a: string, t: string)
    requires '.' !in a
    ensures Fields(a + "." + t) == [a] + Fields(t)
  {
    if a == [] {
      assert a + "." + t == ['.'] + t;
      assert (['.'] + t)[1..] == t;
    } else {
      var s := a + "." + t;
      assert s[1..] == a[1..] + "." + t;
      FieldsSplit(a[1..], t);
      assert [a[0]] + a[1..] == a;
    }
  }

  /** Joins fields back with '.', undoing `Fields`. */
  function JoinFields(f: seq<string>): string
    requires 1 <= |f|
  {
    if |f| == 1 then f[0] else f[0] + "." + JoinFields(f[1..])
  }

  lemma {:induction false} JoinOfFields(s: string)
    ensures JoinFields(Fields(s)) == s
    ensures forall i :: 0 <= i < |Fields(s)| ==> '.' !in Fields(s)[i]
  {
    if s != [] {
      var rest := Fields(s[1..]);
      JoinOfFields(s[1..]);
      if s[0] == '.' {
        assert Fields(s)[1..] == rest;
        assert s == [] + "." + s[1..];
      } else {
        var r := Fields(s);
        assert r[0] == [s[0]] + rest[0];
        assert r[1..] == rest[1..];
        if |rest| == 1 {
          assert s == [s[0]] + s[1..];
        } else {
          assert JoinFields(rest) == rest[0] + "." + JoinFields(rest[1..]);
          assert s == [s[0]] + s[1..];
        }
        forall i | 0 <= i < |r| ensures '.' !in r[i] {
          if i > 0 { assert r[i] == rest[i]; }
        }
      }
    }
  }

  lemma FieldsOfFour(t0: string, t1: string, t2: string, t3: string)
    requires '.' !in t0 && '.' !in t1 && '.' !in t2 && '.' !in t3
    ensures Fields(t0 + "." + t1 + "." + t2 + "." + t3) == [t0, t1, t2, t3]
  {
    var u2 := t2 + "." + t3;
    var u1 := t1 + "." + u2;
    FieldsOfDotless(t3);
    FieldsSplit(t2, t3);
    FieldsSplit(t1, u2);
    FieldsSplit(t0, u1);
    assert t0 + "." + t1 + "." + t2 + "." + t3 == t0 + "." + u1;
  }

  lemma OctetRoundTrip(b: Byte)
    ensures ParseOctet(OctetText(b)) == Some(b) && '.' !in OctetText(b)
  {
  }

  /** Printing an address and reading the text back gives the address. */
  lemma FormatThenParse(a: IPv4)
    ensures ParseIPv4(FormatIPv4(a)) == Some(a)
  {
    var t0, t1, t2, t3 := OctetText(a[0]), OctetText(a[1]), OctetText(a[2]), OctetText(a[3]);
    OctetRoundTrip(a[0]); OctetRoundTrip(a[1]); OctetRoundTrip(a[2]); OctetRoundTrip(a[3]);
    FieldsOfFour(t0, t1, t2, t3);
    assert [a[0], a[1], a[2], a[3]] == a;
  }

  /** Text that parses as an address is exactly that address's printed form. */
  lemma ParseThenFormat(s: string, a: IPv4)
    requires ParseIPv4(s) == Some(a)
    ensures FormatIPv4(a) == s
  {
    var f := Fields(s);
    JoinOfFields(s);
    JoinOfFour(f);
    ParsedOctet(f[0], a[0]);
    ParsedOctet(f[1], a[1]);
    ParsedOctet(f[2], a[2]);
    ParsedOctet(f[3], a[3]);
  }

  lemma JoinOfFour(f: seq<string>)
    requires |f| == 4
    ensures JoinFields(f) == f[0] + "." + f[1] + "." + f[2] + "." + f[3]
  {
    assert f[1..][1..][1..] == [f[3]];
    assert JoinFields(f[1..][1..]) == f[2] + "." + f[3];
    assert JoinFields(f[1..]) == f[1] + "." + (f[2] + "." + f[3]);
  }

  lemma ParsedOctet(t: string, b: Byte)
    requires ParseOctet(t) == Some(b)
    ensures OctetText(b) == t
  {
    DecimalOfDecimalValue(t);
  }

  /** Dotted-decimal printing is a bijection between addresses and the texts that parse. */
  lemma FormatParseIff(s: string, a: IPv4)
    ensures ParseIPv4(s) == Some(a) <==> FormatIPv4(a) == s
  {
    if ParseIPv4(s) == Some(a) { ParseThenFormat(s, a); }
    if FormatIPv4(a) == s { FormatThenParse(a); }
  }

  /** The example of a peer at 10.0.0.5. */
  lemma FormatExample()
    ensures FormatIPv4([10, 0, 0, 5]) == "10.0.0.5"
  {
  }
}
