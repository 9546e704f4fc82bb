/** Numbers, byte strings and lists as text. */
module Text {
  import opened Wrappers
  import opened Orders

  // ---------- decimal ----------

  predicate IsDigit(c: char) {
    '0' <= c <= '9'
  }

  function Digit(d: nat): char
    requires d < 10
  {
    '0' + d as char
  }

  function Decimal(n: nat): string {
    if n < 10 then [Digit(n)] else Decimal(n / 10) + [Digit(n % 10)]
  }

  predicate AllDigits(s: string) {
    forall i | 0 <= i < |s| :: IsDigit(s[i])
  }

  function DigitsValue(s: string): nat
    requires AllDigits(s)
  {
    if s == [] then 0
    else
      assert IsDigit(s[|s| - 1]);
      10 * DigitsValue(s[..|s| - 1]) + (s[|s| - 1] - '0') as nat
  }

  /** The decimal parser of the wide integers: digits only, and the value must fit. */
  function ParseDecimal(s: string, bound: nat): Option<nat> {
    if AllDigits(s) && DigitsValue(s) < bound then Some(DigitsValue(s)) else None
  }

  /** The parser of the machine integers also rejects the empty string and accepts a leading plus. */
  function ParseInteger(s: string, bound: nat): Option<nat> {
    if s == "" then None
    else if s[0] == '+' then if |s| == 1 then None else ParseDecimal(s[1..], bound)
    else ParseDecimal(s, bound)
  }

  lemma {:induction false} DecimalDigits(n: nat)
    ensures Decimal(n) != "" && AllDigits(Decimal(n)) && DigitsValue(Decimal(n)) == n
    ensures n > 0 ==> Decimal(n)[0] != '0'
  {
    if n >= 10 {
      DecimalDigits(n / 10);
      assert Decimal(n)[..|Decimal(n)| - 1] == Decimal(n / 10);
    }
  }

  lemma DecimalRoundTrip(n: nat, bound: nat)
    requires n < bound
    ensures ParseDecimal(Decimal(n), bound) == Some(n) && ParseInteger(Decimal(n), bound) == Some(n)
  {
    DecimalDigits(n);
  }

  // ---------- hexadecimal ----------

  function HexDigit(d: nat): char
    requires d < 16
  {
    if d < 10 then '0' + d as char else 'a' + (d - 10) as char
  }

  function HexValue(c: char): Option<nat> {
    if '0' <= c <= '9' then Some((c - '0') as nat)
    else if 'a' <= c <= 'f' then Some((c - 'a') as nat + 10)
    else if 'A' <= c <= 'F' then Some((c - 'A') as nat + 10)
    else None
  }

  function Hex(bytes: seq<Byte>): (s: string)
    ensures |s| == 2 * |bytes|
  {
    if bytes == [] then "" else [HexDigit(bytes[0] / 16), HexDigit(bytes[0] % 16)] + Hex(bytes[1..])
  }

  /** Exactly `n` bytes in hexadecimal. */
  function ParseHex(s: string, n: nat): (r: Option<seq<Byte>>)
    ensures r.Some? ==> |r.value| == n
  {
    if n == 0 then if s == "" then Some([]) else None
    else if |s| < 2 then None
    else
      var high, low, rest := HexValue(s[0]), HexValue(s[1]), ParseHex(s[2..], n - 1);
      if high.None? || low.None? || rest.None? then None
      else Some([16 * high.value + low.value] + rest.value)
  }

  lemma HexDigitRoundTrip(d: nat)
    requires d < 16
    ensures HexValue(HexDigit(d)) == Some(d)
  {
  }

  lemma {:induction false} HexRoundTrip(bytes: seq<Byte>)
    ensures ParseHex(Hex(bytes), |bytes|) == Some(bytes)
  {
    if bytes != [] {
      HexRoundTrip(bytes[1..]);
      HexDigitRoundTrip(bytes[0] / 16);
      HexDigitRoundTrip(bytes[0] % 16);
      assert Hex(bytes)[2..] == Hex(bytes[1..]);
      assert bytes == [16 * (bytes[0] / 16) + bytes[0] % 16] + bytes[1..];
    }
  }

  // ---------- lists ----------

  function Join(parts: seq<string>, separator: char): string
    requires parts != []
  {
    if |parts| == 1 then parts[0] else parts[0] + [separator] + Join(parts[1..], separator)
  }

  function Index(s: string, c: char): (i: nat)
    ensures i <= |s| && (i < |s| ==> s[i] == c)
    ensures forall k | 0 <= k < i :: s[k] != c
  {
    if s == "" || s[0] == c then 0 else 1 + Index(s[1..], c)
  }

  function Split(s: string, separator: char): (parts: seq<string>)
    ensures parts != []
  {
    var i := Index(s, separator);
    if i == |s| then [s] else [s[..i]] + Split(s[i + 1..], separator)
  }

  lemma IndexIs(s: string, c: char, i: nat)
    requires i <= |s| && (i < |s| ==> s[i] == c)
    requires forall k | 0 <= k < i :: s[k] != c
    ensures Index(s, c) == i
  {
  }

  lemma {:induction false} SplitJoin(parts: seq<string>, separator: char)
    requires parts != [] && forall i | 0 <= i < |parts| :: separator !in parts[i]
    ensures Split(Join(parts, separator), separator) == parts
  {
    var s := Join(parts, separator);
    assert s[..|parts[0]|] == parts[0];
    forall k | 0 <= k < |parts[0]|
      ensures s[k] != separator
    {
      assert s[k] == parts[0][k] && parts[0][k] in parts[0];
    }
    IndexIs(s, separator, |parts[0]|);
    if |parts| > 1 {
      SplitJoin(parts[1..], separator);
      assert s[|parts[0]| + 1..] == Join(parts[1..], separator);
    }
  }

  /** There is one part more than there are separators. */
  lemma {:induction false} SplitCounts(s: string, separator: char)
    ensures |Split(s, separator)| == 1 + multiset(s)[separator]
  {
    var i := Index(s, separator);
    assert multiset(s[..i])[separator] == 0 by {
      assert separator !in s[..i];
    }
    assert s == s[..i] + s[i..];
    if i < |s| {
      assert s[i..] == [separator] + s[i + 1..];
      SplitCounts(s[i + 1..], separator);
    }
  }

  lemma NoCommaInDecimal(n: nat)
    ensures ',' !in Decimal(n)
  {
  }

  /** Lower-case digits only. */
  lemma {:induction false} NoCommaInHex(bytes: seq<Byte>)
    ensures forall c | c in Hex(bytes) :: '0' <= c <= '9' || 'a' <= c <= 'f'
    ensures ',' !in Hex(bytes)
  {
    if bytes != [] {
      NoCommaInHex(bytes[1..]);
    }
  }
}
