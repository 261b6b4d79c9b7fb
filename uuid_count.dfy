/**
 * How many identifiers a record is owed. The storage computes this from
 * the record's `paymentAmount` by adding up Character.getNumericValue of
 * its characters and dividing that sum by 7900; it never reads the
 * amount as a number. CountAsWritten models that; CountIntended is the
 * evidently intended rule: one identifier per whole 7900 of the amount
 * itself, at least one.
 */
module UuidCount {
  import opened Wrappers
  import opened Records

  /** The payment that earns one identifier. */
  const AmountPerUid := 7900

  function Max(a: int, b: int): int {
    if a >= b then a else b
  }

  /**
   * Character.getNumericValue of one UTF-16 code unit: decimal digits
   * (ASCII and full-width) are worth 0..9, Latin letters (ASCII and
   * full-width, either case) 10..35. Every other character is -1 here,
   * although Java gives some of them other values (for example the Roman
   * numerals U+2160..U+2188, worth up to 100000).
   */
  function NumericValue(c: char): (v: int)
    ensures -1 <= v <= 35
    ensures '0' <= c <= '9' ==> v == c as int - '0' as int
    ensures 'a' <= c <= 'z' ==> v == c as int - 'a' as int + 10
    ensures 'A' <= c <= 'Z' ==> v == c as int - 'A' as int + 10
    ensures '\U{FF10}' <= c <= '\U{FF19}' ==> v == c as int - 0xFF10
    ensures '\U{FF21}' <= c <= '\U{FF3A}' ==> v == c as int - 0xFF21 + 10
    ensures '\U{FF41}' <= c <= '\U{FF5A}' ==> v == c as int - 0xFF41 + 10
    ensures v == -1 <==> !(('0' <= c <= '9') || ('a' <= c <= 'z') || ('A' <= c <= 'Z') ||
                           ('\U{FF10}' <= c <= '\U{FF19}') || ('\U{FF21}' <= c <= '\U{FF3A}') ||
                           ('\U{FF41}' <= c <= '\U{FF5A}'))
  {
    if '0' <= c <= '9' then c as int - '0' as int
    else if 'a' <= c <= 'z' then c as int - 'a' as int + 10
    else if 'A' <= c <= 'Z' then c as int - 'A' as int + 10
    else if '\U{FF10}' <= c <= '\U{FF19}' then c as int - 0xFF10
    else if '\U{FF21}' <= c <= '\U{FF3A}' then c as int - 0xFF21 + 10
    else if '\U{FF41}' <= c <= '\U{FF5A}' then c as int - 0xFF41 + 10
    else -1
  }

  /**
   * What one character adds to String.chars().map(getNumericValue).sum():
   * a character outside the Basic Multilingual Plane is two surrogate
   * code units, each worth -1.
   */
  function CharContribution(c: char): (r: int)
    ensures -2 <= r <= 35
    ensures c as int > 0xFFFF ==> r == -2
    ensures c as int <= 0xFFFF && ('0' <= c <= '9') ==> r == c as int - '0' as int
  {
    if c as int > 0xFFFF then -2 else NumericValue(c)
  }

  /** The stream sum of getNumericValue over the string's code units. */
  function DigitSum(s: string): (sum: int)
    ensures -2 * |s| <= sum <= 35 * |s|
  {
    if s == [] then 0 else DigitSum(s[..|s| - 1]) + CharContribution(s[|s| - 1])
  }

  /** Java's int division `a / 7900`, which rounds toward zero. */
  function JavaQuotient(a: int): (q: int)
    ensures a >= 0 ==> 0 <= q * AmountPerUid <= a < q * AmountPerUid + AmountPerUid
    ensures a < 0 ==> q * AmountPerUid - AmountPerUid < a <= q * AmountPerUid <= 0
  {
    if a >= 0 then a / AmountPerUid else -((-a) / AmountPerUid)
  }

  /**
   * getUUIDCount on an amount string, as written: one identifier per
   * whole 7900 of the digit sum, at least one. More than one needs a digit
   * sum of twice the threshold; with no character worth more than 35, as
   * in this model, that takes at least 452 characters.
   */
  function CountAsWritten(amount: string): (n: int)
    ensures n >= 1
    ensures DigitSum(amount) >= AmountPerUid ==>
              n * AmountPerUid <= DigitSum(amount) < (n + 1) * AmountPerUid
    ensures DigitSum(amount) < 2 * AmountPerUid ==> n == 1
    ensures |amount| < 452 ==> n == 1
  {
    Max(1, JavaQuotient(DigitSum(amount)))
  }

  /**
   * getUUIDCount(checkNumber): a missing record or a record without an
   * amount is read as the amount "0" and is owed one identifier.
   */
  function UuidCountOf(data: UserData, k: string): (n: int)
    ensures n >= 1
    ensures k !in data || PaymentAmountKey !in data[k] ==> n == 1
    ensures k in data && PaymentAmountKey in data[k] ==> n == CountAsWritten(data[k][PaymentAmountKey])
  {
    CountAsWritten(GetOrDefault(GetOrDefault(data, k, map[]), PaymentAmountKey, "0"))
  }

  // ---------------------------------------------------------------------------
  // The rule as intended: the amount read as a decimal number
  // ---------------------------------------------------------------------------

  predicate AllDigits(s: string) {
    forall i :: 0 <= i < |s| ==> '0' <= s[i] <= '9'
  }

  /** The value of a string of ASCII digits read as a decimal numeral. */
  function DigitsValue(s: string): nat
    requires AllDigits(s)
  {
    if s == [] then 0 else DigitsValue(s[..|s| - 1]) * 10 + (s[|s| - 1] as int - '0' as int)
  }

  /** A nonempty string of ASCII digits, read as a decimal number. */
  function ParseDecimal(s: string): (r: Option<nat>)
    ensures r.Some? <==> s != [] && AllDigits(s)
  {
    if s != [] && AllDigits(s) then Some(DigitsValue(s)) else None
  }

  /** The decimal numeral of `n`, without leading zeros. */
  function DecimalString(n: nat): (s: string)
    ensures s != [] && AllDigits(s)
  {
    var d := [(n % 10 + '0' as int) as char];
    if n < 10 then d else DecimalString(n / 10) + d
  }

  /**
   * One identifier per whole multiple of the threshold in the amount, and
   * at least one; an amount that is not a numeral earns one.
   */
  function CountIntended(amount: string): (n: int)
    ensures n >= 1
    ensures ParseDecimal(amount).Some? && ParseDecimal(amount).value >= AmountPerUid ==>
              n * AmountPerUid <= ParseDecimal(amount).value < (n + 1) * AmountPerUid
    ensures ParseDecimal(amount).None? ==> n == 1
    ensures ParseDecimal(amount).Some? && ParseDecimal(amount).value < 2 * AmountPerUid ==> n == 1
  {
    match ParseDecimal(amount)
    case Some(v) => Max(1, v / AmountPerUid)
    case None => 1
  }

  /** Reading back the numeral of `n` gives `n`. */
  lemma {:induction false} ParseDecimalString(n: nat)
    ensures ParseDecimal(DecimalString(n)) == Some(n)
  {
    var s := DecimalString(n);
    var d := [(n % 10 + '0' as int) as char];
    assert d[0] as int - '0' as int == n % 10;
    if n < 10 {
      assert s == d;
      assert s[..0] == [];
      assert DigitsValue(s) == DigitsValue([]) * 10 + n % 10;
    } else {
      ParseDecimalString(n / 10);
      var front := DecimalString(n / 10);
      assert s == front + d;
      assert s[..|s| - 1] == front;
    }
  }

  /** The intended count of the amount `n` written out is max(1, n / 7900). */
  lemma CountIntendedOfNumeral(n: nat)
    ensures CountIntended(DecimalString(n)) == Max(1, n / AmountPerUid)
  {
    ParseDecimalString(n);
  }

  /**
   * The discrepancy: an amount of 15800, twice the threshold, earns two
   * identifiers under the intended rule but one as written, because its
   * digit sum is 1 + 5 + 8 + 0 + 0 = 14.
   */
  lemma DigitSumUndercounts()
    ensures CountAsWritten("15800") == 1
    ensures CountIntended("15800") == 2
  {
    var s := "15800";
    assert s[..4] == "1580" && s[..4][..3] == "158" && s[..4][..3][..2] == "15";
    assert s[..4][..3][..2][..1] == "1" && s[..4][..3][..2][..1][..0] == "";
    assert DigitSum("1") == 1;
    assert DigitSum("15") == 6;
    assert DigitSum("158") == 14;
    assert DigitSum("1580") == 14;
    assert DigitSum(s) == 14;
    assert AllDigits(s);
    assert DigitsValue("1") == 1;
    assert DigitsValue("15") == 15;
    assert DigitsValue("158") == 158;
    assert DigitsValue("1580") == 1580;
    assert DigitsValue(s) == 15800;
  }
}
