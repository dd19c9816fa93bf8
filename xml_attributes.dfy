/** The integer coercion `parseObject` applies to every XML attribute when a
    message arrives as an XML stanza: the attribute becomes a number exactly
    when `parseInt(value, 10)` succeeds and printing that number gives the
    attribute text back; otherwise it stays a string. */
module XmlAttributes {
  import opened Wrappers

  /** A JSON value read from an attribute. */
  datatype AttributeValue = Number(n: int) | Text(s: string)

  /** The largest integer a JavaScript number holds exactly (2^53 - 1). */
  const MaxSafeInteger: int := 0x1F_FFFF_FFFF_FFFF

  predicate IsSafeInteger(n: int) { -MaxSafeInteger <= n <= MaxSafeInteger }

  predicate IsDigit(c: char) { '0' <= c <= '9' }

  function DigitValue(c: char): (d: nat)
    requires IsDigit(c)
    ensures d < 10
  {
    (c as int) - ('0' as int)
  }

  function DigitChar(d: nat): (c: char)
    requires d < 10
    ensures IsDigit(c) && DigitValue(c) == d
  {
    ((d + '0' as int) as char)
  }

  /** Decimal digits of `n`, most significant first, without leading zeros. */
  function NatString(n: nat): (s: string)
    ensures |s| >= 1
    ensures forall i :: 0 <= i < |s| ==> IsDigit(s[i])
    ensures s[0] == '0' ==> n == 0
  {
    if n < 10 then [DigitChar(n)] else NatString(n / 10) + [DigitChar(n % 10)]
  }

  /** `'' + n` for an integer-valued number. */
  function IntString(n: int): (s: string)
    ensures |s| >= 1 && (s[0] == '-' || IsDigit(s[0]))
    ensures s[0] == '-' <==> n < 0
  {
    if n < 0 then "-" + NatString(-n) else NatString(n)
  }

  /** The value of a run of decimal digits. */
  function ParseDigits(s: string): (n: nat)
    requires forall i :: 0 <= i < |s| ==> IsDigit(s[i])
  {
    if s == [] then 0 else ParseDigits(s[..|s| - 1]) * 10 + DigitValue(s[|s| - 1])
  }

  /** The white space `parseInt` skips before the number. */
  predicate IsWhiteSpace(c: char) {
    c == ' ' || c == '\t' || c == '\n' || c == '\r' || c == '\U{B}' || c == '\U{C}'
    || c == '\U{A0}' || c == '\U{FEFF}' || c == '\U{2028}' || c == '\U{2029}'
  }

  function SkipWhiteSpace(s: string): (t: string)
    ensures |t| <= |s| && t == s[|s| - |t|..]
    ensures t != [] ==> !IsWhiteSpace(t[0])
  {
    if s != [] && IsWhiteSpace(s[0]) then SkipWhiteSpace(s[1..]) else s
  }

  /** The length of the longest run of digits `s` starts with. */
  function DigitPrefixLength(s: string): (k: nat)
    ensures k <= |s|
    ensures forall i :: 0 <= i < k ==> IsDigit(s[i])
    ensures k < |s| ==> !IsDigit(s[k])
  {
    if s == [] || !IsDigit(s[0]) then 0 else 1 + DigitPrefixLength(s[1..])
  }

  /** What `parseInt` reads digits from: the text after the leading white
      space and an optional sign. */
  function Unsigned(s: string): (u: string)
    ensures |u| <= |s|
  {
    var t := SkipWhiteSpace(s);
    if t != [] && (t[0] == '-' || t[0] == '+') then t[1..] else t
  }

  predicate HasMinus(s: string) {
    var t := SkipWhiteSpace(s);
    t != [] && t[0] == '-'
  }

  /** `parseInt(s, 10)`: white space, an optional sign, then the longest run
      of digits; `None` stands for `NaN` (no digit after the sign). */
  function ParseInt(s: string): (r: Option<int>)
    ensures r.Some? <==> Unsigned(s) != [] && IsDigit(Unsigned(s)[0])
  {
    var u := Unsigned(s);
    var k := DigitPrefixLength(u);
    if k == 0 then None
    else
      var v: int := ParseDigits(u[..k]);
      Some(if HasMinus(s) then -v else v)
  }

  /** How `encodeMessageToXml` writes a value back as attribute text. */
  function Render(v: AttributeValue): string {
    match v
    case Number(n) => IntString(n)
    case Text(s) => s
  }

  /** Lines 427-433: a number when `parseInt` succeeds and prints back as
      the same text, otherwise the text itself. Whatever the outcome, the
      attribute text can be recovered from the value. */
  function CoerceAttribute(value: string): (r: AttributeValue)
    ensures Render(r) == value
    ensures r.Number? ==> ParseInt(value) == Some(r.n) && IsSafeInteger(r.n)
  {
    match ParseInt(value)
    case None => Text(value)
    case Some(n) =>
      if IsSafeInteger(n) && IntString(n) == value then Number(n) else Text(value)
  }

  /** Reading back the digits of a number gives the number. */
  lemma {:induction false} ParseNatString(n: nat)
    ensures ParseDigits(NatString(n)) == n
  {
    var s := NatString(n);
    if n >= 10 {
      assert s[..|s| - 1] == NatString(n / 10);
      ParseNatString(n / 10);
    }
  }

  /** `parseInt` reads a printed integer back exactly. */
  lemma ParseIntString(n: int)
    ensures ParseInt(IntString(n)) == Some(n)
  {
    var s := IntString(n);
    var m: nat := if n < 0 then -n else n;
    var u := NatString(m);
    assert !IsWhiteSpace(s[0]);
    assert SkipWhiteSpace(s) == s;
    assert Unsigned(s) == u && (HasMinus(s) <==> n < 0);
    assert DigitPrefixLength(u) == |u| && u[..|u|] == u;
    ParseNatString(m);
  }

  /** An integer attribute written by the encoder comes back as the same
      number, provided a JavaScript number holds it exactly. */
  lemma CoerceRecoversIntegers(n: int)
    requires IsSafeInteger(n)
    ensures CoerceAttribute(Render(Number(n))) == Number(n)
  {
    ParseIntString(n);
  }

  /** An attribute becomes a number exactly when its text is how some
      exactly representable integer prints. */
  lemma CoerceNumberIff(value: string)
    ensures CoerceAttribute(value).Number? <==>
      exists n :: IsSafeInteger(n) && IntString(n) == value
  {
    if n :| IsSafeInteger(n) && IntString(n) == value {
      ParseIntString(n);
    }
  }

  /** A string attribute that looks like an integer comes back as a number. */
  lemma CoercionLosesStringType()
    ensures CoerceAttribute(Render(Text("42"))) == Number(42)
  {
    assert IntString(42) == "42";
    ParseIntString(42);
  }

  /** "-0" is read as zero, which prints as "0": the attribute stays text. */
  lemma NegativeZeroStaysText()
    ensures CoerceAttribute("-0") == Text("-0")
  {
  }

  /** Leading zeros do not print back: the attribute stays text. */
  lemma LeadingZeroStaysText()
    ensures CoerceAttribute("007") == Text("007")
  {
  }
}
