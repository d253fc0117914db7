/** The `u64` fields of transaction data: decoded from a decimal string or a small number, encoded as a
    decimal string, and checked both ways. */
module U64 {
  import opened Domain

  const U64_MAX: nat := 0xFFFF_FFFF_FFFF_FFFF
  const MAX_SAFE_INTEGER: int := 0x1F_FFFF_FFFF_FFFF

  datatype Wire = Text(text: string) | Number(value: real)

  /** The white space `trim` takes off, line terminators included. */
  predicate IsSpace(c: char) {
    || c in {'\t', '\n', '\r', ' ', '\U{0B}', '\U{0C}', '\U{A0}', '\U{1680}', '\U{2028}', '\U{2029}', '\U{202F}',
             '\U{205F}', '\U{3000}', '\U{FEFF}'}
    || '\U{2000}' <= c <= '\U{200A}'
  }

  function Trim(s: string): string {
    if s != "" && IsSpace(s[0]) then Trim(s[1..])
    else if s != "" && IsSpace(s[|s| - 1]) then Trim(s[..|s| - 1])
    else s
  }

  predicate IsDigit(c: char) {
    '0' <= c <= '9'
  }

  /** `0`, or digits that do not begin with one. */
  predicate IsDecimal(s: string) {
    s == "0" || (s != "" && s[0] != '0' && forall k :: 0 <= k < |s| ==> IsDigit(s[k]))
  }

  function DigitOf(n: nat): (c: char)
    requires n < 10
    ensures IsDigit(c) && DigitValue(c) == n && (c == '0' <==> n == 0)
  {
    ('0' as int + n) as char
  }

  function DigitValue(c: char): nat
    requires IsDigit(c)
  {
    c as int - '0' as int
  }

  /** The number a string of digits names. */
  function ValueOf(s: string): nat
    requires forall k :: 0 <= k < |s| ==> IsDigit(s[k])
  {
    if s == "" then 0 else 10 * ValueOf(s[..|s| - 1]) + DigitValue(s[|s| - 1])
  }

  /** The number as it is written. */
  function Decimal(n: nat): string {
    if n < 10 then [DigitOf(n)] else Decimal(n / 10) + [DigitOf(n % 10)]
  }

  /** `u64Of`. */
  function Decode(wire: Wire): Option<nat> {
    match wire
    case Number(value) =>
      var whole := value.Floor;
      if whole as real != value || whole > MAX_SAFE_INTEGER || whole < 0 then None else Some(whole)
    case Text(text) =>
      var trimmed := Trim(text);
      if !IsDecimal(trimmed) then None
      else if ValueOf(trimmed) > U64_MAX then None
      else Some(ValueOf(trimmed))
  }

  function Encode(value: int): Option<string> {
    if value < 0 || value > U64_MAX then None else Some(Decimal(value))
  }

  lemma {:induction false} DecimalReadsBack(n: nat)
    ensures IsDecimal(Decimal(n)) && ValueOf(Decimal(n)) == n
    ensures n > 0 ==> Decimal(n)[0] != '0'
  {
    if n >= 10 {
      DecimalReadsBack(n / 10);
      assert Decimal(n)[..|Decimal(n)| - 1] == Decimal(n / 10);
    } else {
      assert Decimal(n)[..0] == "";
    }
  }

  lemma {:induction false} DecimalIsTheOnlySpelling(s: string)
    requires IsDecimal(s)
    ensures Decimal(ValueOf(s)) == s
    ensures s != "0" ==> ValueOf(s) > 0
  {
    var before, last := s[..|s| - 1], s[|s| - 1];
    assert s == before + [last];
    if before == "" {
      assert ValueOf(s) == DigitValue(last);
      assert DigitOf(ValueOf(s)) == last;
    } else {
      DecimalIsTheOnlySpelling(before);
      assert DigitOf(DigitValue(last)) == last;
      assert ValueOf(s) / 10 == ValueOf(before);
    }
  }

  lemma DecimalIsTrimmed(n: nat)
    ensures Trim(Decimal(n)) == Decimal(n)
  {
    DecimalReadsBack(n);
    var s := Decimal(n);
    assert IsDigit(s[0]) && IsDigit(s[|s| - 1]);
  }

  /** A string is read as a number exactly when, white space aside, it is the one way to write it. */
  lemma TextIsReadExactly(text: string, n: nat)
    ensures Decode(Text(text)) == Some(n) <==> n <= U64_MAX && Trim(text) == Decimal(n)
  {
    DecimalReadsBack(n);
    if IsDecimal(Trim(text)) {
      DecimalIsTheOnlySpelling(Trim(text));
    }
  }

  /** What is encoded is read back, and what was read is encoded as it was written. */
  lemma RoundTrips(value: int, text: string)
    ensures Encode(value).Some? <==> 0 <= value <= U64_MAX
    ensures Encode(value).Some? ==> Decode(Text(Encode(value).value)) == Some(value)
    ensures Decode(Text(text)).Some? ==> Encode(Decode(Text(text)).value) == Some(Trim(text))
  {
    if Encode(value).Some? {
      DecimalIsTrimmed(value);
      TextIsReadExactly(Encode(value).value, value);
    }
    if Decode(Text(text)).Some? {
      TextIsReadExactly(text, Decode(Text(text)).value);
    }
  }

  /** A number is read only as itself; a whole one that JavaScript holds exactly, just as its decimal
      string is. */
  lemma NumbersReadAsTheirText(value: real, n: nat)
    ensures Decode(Number(value)).Some? ==> Decode(Number(value)).value as real == value
    ensures n <= MAX_SAFE_INTEGER ==>
              Decode(Number(n as real)) == Some(n) && Decode(Text(Decimal(n))) == Some(n)
    ensures n > MAX_SAFE_INTEGER ==> Decode(Number(n as real)) == None
  {
    DecimalIsTrimmed(n);
    TextIsReadExactly(Decimal(n), n);
    assert (n as real).Floor == n;
  }
}
