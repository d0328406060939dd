/** Rust's fixed-width unsigned integers and the standard library's parsing of
    them from text (`str::parse::<u32>`, `str::parse::<u64>` and
    `u32::from_str_radix`), which the compiler and the evaluator both rely on. */
module Numbers {
  import opened Wrappers

  const U32_LIMIT: int := 0x1_0000_0000
  const U64_LIMIT: int := 0x1_0000_0000_0000_0000

  type u32 = n: int | 0 <= n < U32_LIMIT
  type u64 = n: int | 0 <= n < U64_LIMIT

  /** True when `c` is a digit of the given radix (8 or 10). */
  predicate IsDigit(c: char, radix: nat)
    requires radix == 8 || radix == 10
  {
    '0' <= c && (c as int) < ('0' as int) + radix
  }

  function DigitValue(c: char): nat
    requires '0' <= c
  {
    (c as int) - ('0' as int)
  }

  function DigitChar(d: nat): (c: char)
    requires d < 10
    ensures '0' <= c && DigitValue(c) == d
  {
    (('0' as int) + d) as char
  }

  predicate AllDigits(s: string, radix: nat)
    requires radix == 8 || radix == 10
  {
    forall k :: 0 <= k < |s| ==> IsDigit(s[k], radix)
  }

  /** The value of a digit string, most significant digit first. */
  function DigitsValue(s: string, radix: nat): nat
    requires radix == 8 || radix == 10
    requires AllDigits(s, radix)
  {
    if s == [] then 0
    else DigitsValue(s[..|s| - 1], radix) * radix + DigitValue(s[|s| - 1])
  }

  /** The digits that follow an optional leading '+'. Rust's unsigned parsers
      accept one '+' and reject a '-'. */
  function Unsigned(s: string): string
  {
    if |s| > 0 && s[0] == '+' then s[1..] else s
  }

  /** Parsing of an unsigned integer below `limit`: `None` for an empty digit
      string, a non-digit character or a value that does not fit. */
  function ParseUnsigned(s: string, radix: nat, limit: nat): (r: Option<nat>)
    requires radix == 8 || radix == 10
    ensures r.Some? <==> Unsigned(s) != [] && AllDigits(Unsigned(s), radix)
                         && DigitsValue(Unsigned(s), radix) < limit
    ensures r.Some? ==> r.value == DigitsValue(Unsigned(s), radix) < limit
  {
    var digits := Unsigned(s);
    if digits == [] || !AllDigits(digits, radix) then None
    else
      var v := DigitsValue(digits, radix);
      if v < limit then Some(v) else None
  }

  /** `text.parse::<u32>()` */
  function ParseU32(s: string): (r: Option<u32>)
    ensures r.Some? <==> Unsigned(s) != [] && AllDigits(Unsigned(s), 10)
                         && DigitsValue(Unsigned(s), 10) < U32_LIMIT
    ensures r.Some? ==> r.value == DigitsValue(Unsigned(s), 10)
  {
    match ParseUnsigned(s, 10, U32_LIMIT)
    case Some(v) => Some(v)
    case None => None
  }

  /** `text.parse::<u64>()` */
  function ParseU64(s: string): (r: Option<u64>)
    ensures r.Some? <==> Unsigned(s) != [] && AllDigits(Unsigned(s), 10)
                         && DigitsValue(Unsigned(s), 10) < U64_LIMIT
    ensures r.Some? ==> r.value == DigitsValue(Unsigned(s), 10)
  {
    match ParseUnsigned(s, 10, U64_LIMIT)
    case Some(v) => Some(v)
    case None => None
  }

  /** `u32::from_str_radix(text, 8)` */
  function ParseOctalU32(s: string): (r: Option<u32>)
    ensures r.Some? <==> Unsigned(s) != [] && AllDigits(Unsigned(s), 8)
                         && DigitsValue(Unsigned(s), 8) < U32_LIMIT
    ensures r.Some? ==> r.value == DigitsValue(Unsigned(s), 8)
  {
    match ParseUnsigned(s, 8, U32_LIMIT)
    case Some(v) => Some(v)
    case None => None
  }

  /** The canonical spelling of `n` in the radix: no sign, no leading zeros. */
  function ToDigits(n: nat, radix: nat): (s: string)
    requires radix == 8 || radix == 10
    ensures |s| >= 1 && s[0] != '+'
    decreases n
  {
    if n < radix then [DigitChar(n)]
    else ToDigits(n / radix, radix) + [DigitChar(n % radix)]
  }

  lemma {:induction false} ToDigitsValue(n: nat, radix: nat)
    requires radix == 8 || radix == 10
    ensures AllDigits(ToDigits(n, radix), radix)
    ensures DigitsValue(ToDigits(n, radix), radix) == n
    decreases n
  {
    var s := ToDigits(n, radix);
    if n >= radix {
      ToDigitsValue(n / radix, radix);
      assert s[..|s| - 1] == ToDigits(n / radix, radix);
    }
  }

  /** Parsing the canonical spelling of a value that fits gives that value back. */
  lemma ParseToDigits(n: nat, radix: nat, limit: nat)
    requires radix == 8 || radix == 10
    requires n < limit
    ensures ParseUnsigned(ToDigits(n, radix), radix, limit) == Some(n)
  {
    ToDigitsValue(n, radix);
  }

  /** Decimal round trip at width 32: the form the `-uid`, `-gid`, `-user` and
      `-group` arguments take. */
  lemma ParseU32Decimal(n: u32)
    ensures ParseU32(ToDigits(n, 10)) == Some(n)
  {
    ParseToDigits(n, 10, U32_LIMIT);
  }

  /** A leading '+' is accepted and changes nothing. */
  lemma {:induction false} PlusPrefixAccepted(s: string, radix: nat, limit: nat)
    requires radix == 8 || radix == 10
    requires |s| > 0 && s[0] != '+'
    ensures ParseUnsigned(['+'] + s, radix, limit) == ParseUnsigned(s, radix, limit)
  {
    assert Unsigned(['+'] + s) == s;
  }

  /** A character other than a digit of the radix after the optional '+' is
      rejected, whatever the other characters are. */
  lemma NonDigitRejected(s: string, radix: nat, limit: nat, k: nat)
    requires radix == 8 || radix == 10
    requires k < |Unsigned(s)| && !IsDigit(Unsigned(s)[k], radix)
    ensures ParseUnsigned(s, radix, limit) == None
  {
  }

  /** A numeric permission is read in base 8: "644" is 420, "755" is 493. */
  lemma OctalExamples()
    ensures ParseOctalU32("644") == Some(420)
    ensures ParseOctalU32("755") == Some(493)
    ensures ParseOctalU32("0644") == Some(420)
    ensures ParseOctalU32("8") == None
  {
    assert "644"[..2] == "64" && "64"[..1] == "6" && "6"[..0] == "";
    assert "755"[..2] == "75" && "75"[..1] == "7" && "7"[..0] == "";
    assert "0644"[..3] == "064" && "064"[..2] == "06" && "06"[..1] == "0" && "0"[..0] == "";
    assert !IsDigit("8"[0], 8);
  }

  /** Values at or beyond 2^32 do not fit a `u32`. */
  lemma U32Overflow()
    ensures ParseU32("4294967296") == None
    ensures ParseU32("4294967295") == Some(4294967295)
  {
    ToDigitsValue(4294967296, 10);
    ToDigitsValue(4294967295, 10);
    assert ToDigits(4294967296, 10) == "4294967296";
    assert ToDigits(4294967295, 10) == "4294967295";
  }
}
