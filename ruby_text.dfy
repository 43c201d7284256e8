/**
 The few pieces of Ruby's String and Integer behaviour that the response reader
 relies on: byte strings, `Integer#to_s` in base 10 and base 16, the match of a
 status text against `/^5..$/`, and a parser for the hexadecimal size field.
 */
module RubyText {

  /** A Ruby value that may be nil. */
  datatype Option<T> = None | Some(value: T)

  type byte = b: int | 0 <= b < 0x100

  /** The ASCII line feed, which Ruby's `^`, `$` and `.` treat specially. */
  const LF: byte := 10

  /** The bytes of a string literal whose characters are all single bytes. */
  function Bytes(s: string): seq<byte>
    requires forall i | 0 <= i < |s| :: s[i] as int < 0x100
  {
    seq(|s|, i requires 0 <= i < |s| => s[i] as int)
  }

  /** A digit as Ruby's `Integer#to_s(base)` writes it: `0`-`9`, then lower-case `a`-`f`. */
  function DigitByte(d: nat): (b: byte)
    requires d < 16
    ensures IsLowerDigit(b) && DigitValue(b) == d
  {
    if d < 10 then '0' as int + d else 'a' as int + (d - 10)
  }

  predicate IsLowerDigit(b: byte) {
    '0' as int <= b <= '9' as int || 'a' as int <= b <= 'f' as int
  }

  /** A hexadecimal digit in either case. */
  predicate IsHexDigit(b: byte) {
    IsLowerDigit(b) || 'A' as int <= b <= 'F' as int
  }

  function DigitValue(b: byte): nat
    requires IsHexDigit(b)
  {
    if b <= '9' as int then b - '0' as int
    else if b <= 'F' as int then b - 'A' as int + 10
    else b - 'a' as int + 10
  }

  /** `n.to_s` for a non-negative integer: its decimal digits, most significant first. */
  function Decimal(n: nat): seq<byte>
    decreases n
  {
    if n < 10 then [DigitByte(n)] else Decimal(n / 10) + [DigitByte(n % 10)]
  }

  /** `n.to_s(16)` for a non-negative integer: its lower-case hexadecimal digits, most significant first. */
  function Hex(n: nat): seq<byte>
    decreases n
  {
    if n < 16 then [DigitByte(n)] else Hex(n / 16) + [DigitByte(n % 16)]
  }

  /** `to_s` writes at least one digit, and only the digits `0` to `9`. */
  lemma {:induction false} DecimalIsCanonical(n: nat)
    ensures var s := Decimal(n);
      |s| >= 1 && forall i | 0 <= i < |s| :: '0' as int <= s[i] <= '9' as int
    decreases n
  {
    if n >= 10 {
      DecimalIsCanonical(n / 10);
    }
  }

  /** `to_s(16)` writes at least one digit, each a lower-case hexadecimal digit, and no leading zero. */
  lemma {:induction false} HexIsCanonical(n: nat)
    ensures var s := Hex(n);
      && |s| >= 1
      && (forall i | 0 <= i < |s| :: IsLowerDigit(s[i]))
      && (n > 0 ==> s[0] != '0' as int)
    decreases n
  {
    if n >= 16 {
      HexIsCanonical(n / 16);
    }
  }

  /** The value of a string of hexadecimal digits, most significant first. */
  function ParseHex(s: seq<byte>): nat
    requires forall i | 0 <= i < |s| :: IsHexDigit(s[i])
    decreases |s|
  {
    if s == [] then 0 else ParseHex(s[..|s| - 1]) * 16 + DigitValue(s[|s| - 1])
  }

  /** Reading the digits `to_s(16)` wrote gives the number back. */
  lemma {:induction false} HexRoundTrip(n: nat)
    ensures var s := Hex(n); (forall i | 0 <= i < |s| :: IsHexDigit(s[i])) && ParseHex(s) == n
    decreases n
  {
    var s := Hex(n);
    HexIsCanonical(n);
    if n >= 16 {
      HexRoundTrip(n / 16);
      assert s[..|s| - 1] == Hex(n / 16);
    } else {
      assert s[..|s| - 1] == [];
    }
  }

  /** `Integer#to_s`: a minus sign for a negative number, then its decimal digits. */
  function IntText(n: int): (s: seq<byte>)
    ensures forall i | 0 <= i < |s| :: s[i] != LF
    ensures |s| >= 1 && (n < 0 <==> s[0] == '-' as int)
  {
    DecimalIsCanonical(if n < 0 then -n else n);
    if n < 0 then ['-' as int] + Decimal(-n) else Decimal(n)
  }

  /**
   Ruby's `s =~ /^5..$/` as a yes/no answer: some line of `s` (the text between
   line feeds) is three bytes long and starts with `5`. In Ruby `^` and `$`
   match at every line boundary, and `.` matches any byte except a line feed.
   */
  predicate MatchesFiveXX(s: seq<byte>) {
    exists i | 0 <= i <= |s| :: FiveXXLineAt(s, i)
  }

  /** A line of `s` starts at `i`, is three bytes long and starts with `5`. */
  predicate FiveXXLineAt(s: seq<byte>, i: nat) {
    && i + 3 <= |s|
    && (i == 0 || s[i - 1] == LF)
    && s[i] == '5' as int && s[i + 1] != LF && s[i + 2] != LF
    && (i + 3 == |s| || s[i + 3] == LF)
  }

  /** The decimal text of `n` has three digits exactly when `n` is between 100 and 999, and then its first digit is that of the hundreds. */
  lemma DecimalHasThreeDigits(n: nat)
    ensures |Decimal(n)| == 3 <==> 100 <= n <= 999
    ensures 100 <= n <= 999 ==> Decimal(n)[0] == DigitByte(n / 100)
  {
    if n >= 10 {
      var m := n / 10;
      assert Decimal(n) == Decimal(m) + [DigitByte(n % 10)];
      if m >= 10 {
        var p := m / 10;
        assert p == n / 100;
        assert Decimal(m) == Decimal(p) + [DigitByte(m % 10)];
        if p >= 10 {
          DecimalIsCanonical(p / 10);
          assert Decimal(p) == Decimal(p / 10) + [DigitByte(p % 10)];
        }
      }
    }
  }

  /** The status test of the reader, on an integer status: its text matches `/^5..$/` exactly for 500 to 599. */
  lemma FiveXXStatus(n: int)
    ensures MatchesFiveXX(IntText(n)) ==> 500 <= n <= 599
    ensures 500 <= n <= 599 ==> MatchesFiveXX(IntText(n))
  {
    var s := IntText(n);
    if 500 <= n <= 599 {
      DecimalHasThreeDigits(n);
      assert s[0] == '5' as int && s[1] != LF && s[2] != LF && |s| == 3;
      assert FiveXXLineAt(s, 0);
    }
    if MatchesFiveXX(s) {
      var i :| 0 <= i <= |s| && FiveXXLineAt(s, i);
      assert i == 0 && |s| == 3 && n >= 0;
      DecimalHasThreeDigits(n);
      assert s == Decimal(n);
      assert DigitByte(n / 100) == '5' as int;
      assert n / 100 == 5;
    }
  }
}
