/**
 * The sequential code generator of `server/db/db.js`: the next code of a
 * table is the largest stored code, read as an integer, plus one (one when the
 * table is empty or the largest is 0), written in decimal and padded on the
 * left with '0' to a fixed width (5 for user ids, 2 for tax and location
 * codes). Padding never truncates.
 */
module CodeGen {
  import opened Wrappers

  const UserIdWidth: nat := 5
  const TaxCodeWidth: nat := 2
  const LocationCodeWidth: nat := 2

  predicate IsDigit(c: char) {
    '0' <= c <= '9'
  }

  predicate AllDigits(s: string) {
    forall i :: 0 <= i < |s| ==> IsDigit(s[i])
  }

  function DigitValue(c: char): (d: nat)
    requires IsDigit(c)
    ensures d < 10
  {
    c as int - '0' as int
  }

  function DigitChar(d: nat): (c: char)
    requires d < 10
    ensures IsDigit(c) && DigitValue(c) == d
  {
    ('0' as int + d) as char
  }

  function Pow10(k: nat): (p: nat)
    ensures p >= 1
  {
    if k == 0 then 1 else 10 * Pow10(k - 1)
  }

  /** `String(n)` for a non-negative integer: its decimal digits. */
  function Decimal(n: nat): (s: string)
    ensures |s| >= 1 && AllDigits(s)
    decreases n
  {
    if n < 10 then [DigitChar(n)] else Decimal(n / 10) + [DigitChar(n % 10)]
  }

  /** The integer a string of decimal digits denotes, most significant digit first. */
  function DigitsValue(s: string): nat
    requires AllDigits(s)
  {
    if s == [] then 0 else 10 * DigitsValue(s[..|s| - 1]) + DigitValue(s[|s| - 1])
  }

  /** Reading back what `Decimal` writes gives the number again. */
  lemma {:induction false} DecimalValue(n: nat)
    ensures DigitsValue(Decimal(n)) == n
    decreases n
  {
    if n >= 10 {
      DecimalValue(n / 10);
      var s := Decimal(n);
      assert s[..|s| - 1] == Decimal(n / 10);
    }
  }

  /** A number of at least 10^k takes more than k digits, and one below 10^k (k >= 1) at most k. */
  lemma {:induction false} DecimalLength(n: nat, k: nat)
    ensures n >= Pow10(k) ==> |Decimal(n)| > k
    ensures k >= 1 && n < Pow10(k) ==> |Decimal(n)| <= k
    decreases n
  {
    if n >= 10 {
      if k >= 1 {
        DecimalLength(n / 10, k - 1);
      }
    }
  }

  function Repeat(c: char, k: nat): (r: string)
    ensures |r| == k && forall i :: 0 <= i < k ==> r[i] == c
  {
    if k == 0 then [] else [c] + Repeat(c, k - 1)
  }

  /** JavaScript's `s.padStart(width, fill)` for a one-character fill: never truncates. */
  function PadStart(s: string, width: nat, fill: char): (r: string)
    ensures |r| == if |s| >= width then |s| else width
    ensures r[|r| - |s|..] == s
    ensures forall i :: 0 <= i < |r| - |s| ==> r[i] == fill
  {
    if |s| >= width then s else Repeat(fill, width - |s|) + s
  }

  /** Leading zeros do not change the value of a digit string. */
  lemma {:induction false} LeadingZerosValue(k: nat, s: string)
    requires AllDigits(s)
    ensures AllDigits(Repeat('0', k) + s)
    ensures DigitsValue(Repeat('0', k) + s) == DigitsValue(s)
    decreases |s|
  {
    var t := Repeat('0', k) + s;
    if s == [] {
      ZerosValue(k);
      assert t == Repeat('0', k);
    } else {
      LeadingZerosValue(k, s[..|s| - 1]);
      assert t[..|t| - 1] == Repeat('0', k) + s[..|s| - 1];
    }
  }

  lemma {:induction false} ZerosValue(k: nat)
    ensures AllDigits(Repeat('0', k)) && DigitsValue(Repeat('0', k)) == 0
  {
    if k > 0 {
      var z := Repeat('0', k);
      ZerosValue(k - 1);
      assert z[..k - 1] == Repeat('0', k - 1);
    }
  }

  /** The longest prefix of `s` made of decimal digits. */
  function LeadingDigits(s: string): (r: string)
    ensures AllDigits(r) && r <= s
    ensures |r| < |s| ==> !IsDigit(s[|r|])
  {
    if s == [] || !IsDigit(s[0]) then [] else [s[0]] + LeadingDigits(s[1..])
  }

  lemma {:induction false} LeadingDigitsOfDigits(s: string)
    requires AllDigits(s)
    ensures LeadingDigits(s) == s
  {
    if s != [] {
      LeadingDigitsOfDigits(s[1..]);
    }
  }

  /**
   * SQLite's `CAST(code AS INTEGER)` on a code: the value of its leading
   * decimal digits, 0 when it starts with anything else.
   */
  function CastInteger(s: string): (n: nat)
    ensures s == [] || !IsDigit(s[0]) ==> n == 0
    ensures AllDigits(s) ==> n == DigitsValue(s)
  {
    if AllDigits(s) then LeadingDigitsOfDigits(s); DigitsValue(LeadingDigits(s))
    else DigitsValue(LeadingDigits(s))
  }

  /** On a string of digits the cast reads the whole string. */
  lemma CastOfDigits(s: string)
    requires AllDigits(s)
    ensures CastInteger(s) == DigitsValue(s)
  {
    LeadingDigitsOfDigits(s);
  }

  /** `SELECT MAX(CAST(code AS INTEGER))`: NULL on an empty table. */
  function MaxCast(codes: seq<string>): (m: Option<nat>)
    ensures m.None? <==> codes == []
    ensures m.Some? ==> forall i :: 0 <= i < |codes| ==> CastInteger(codes[i]) <= m.value
    ensures m.Some? ==> exists i :: 0 <= i < |codes| && CastInteger(codes[i]) == m.value
  {
    if codes == [] then None
    else
      var v := CastInteger(codes[|codes| - 1]);
      match MaxCast(codes[..|codes| - 1])
      case None => Some(v)
      case Some(m) => Some(if v > m then v else m)
  }

  /**
   * The number the next code carries: the maximum plus one, or one when the
   * maximum is NULL or 0 (`row && row.maxId` is falsy then).
   */
  function NextNumber(codes: seq<string>): (n: nat)
    ensures n >= 1
    ensures forall i :: 0 <= i < |codes| ==> CastInteger(codes[i]) < n
    ensures n == 1 || exists i :: 0 <= i < |codes| && CastInteger(codes[i]) == n - 1
  {
    match MaxCast(codes)
    case None => 1
    case Some(m) => if m == 0 then 1 else m + 1
  }

  /** `String(NextNumber(codes)).padStart(width, '0')`. */
  function NextCode(codes: seq<string>, width: nat): (code: string)
    ensures AllDigits(code) && |code| >= width
  {
    var d := Decimal(NextNumber(codes));
    var code := PadStart(d, width, '0');
    assert code == d || code == Repeat('0', width - |d|) + d;
    LeadingZerosValue(if |d| >= width then 0 else width - |d|, d);
    code
  }

  /** The next code reads back as the next number, so it exceeds every stored code and equals none. */
  lemma NextCodeIsFresh(codes: seq<string>, width: nat)
    ensures CastInteger(NextCode(codes, width)) == NextNumber(codes)
    ensures forall i :: 0 <= i < |codes| ==> CastInteger(codes[i]) < CastInteger(NextCode(codes, width))
    ensures forall i :: 0 <= i < |codes| ==> codes[i] != NextCode(codes, width)
  {
    var n := NextNumber(codes);
    var d := Decimal(n);
    var k := if |d| >= width then 0 else width - |d|;
    var code := NextCode(codes, width);
    assert code == Repeat('0', k) + d;
    LeadingZerosValue(k, d);
    DecimalValue(n);
    CastOfDigits(code);
  }

  /** The code is exactly `width` long as long as the next number has at most `width` digits, and longer otherwise. */
  lemma CodeWidth(codes: seq<string>, width: nat)
    requires width >= 1
    ensures |NextCode(codes, width)| == width <==> NextNumber(codes) < Pow10(width)
    ensures NextNumber(codes) >= Pow10(width) ==> |NextCode(codes, width)| == |Decimal(NextNumber(codes))|
  {
    DecimalLength(NextNumber(codes), width);
  }

  /** `generateNextUserId`: five-digit user ids. */
  function NextUserId(userIds: seq<string>): (id: string)
    ensures AllDigits(id) && |id| >= UserIdWidth
    ensures CastInteger(id) == NextNumber(userIds)
    ensures forall i :: 0 <= i < |userIds| ==> userIds[i] != id
  {
    NextCodeIsFresh(userIds, UserIdWidth);
    NextCode(userIds, UserIdWidth)
  }

  /** `generateNextTaxCode`: two-digit tax codes. */
  function NextTaxCode(taxCodes: seq<string>): (code: string)
    ensures AllDigits(code) && |code| >= TaxCodeWidth
    ensures CastInteger(code) == NextNumber(taxCodes)
    ensures forall i :: 0 <= i < |taxCodes| ==> taxCodes[i] != code
  {
    NextCodeIsFresh(taxCodes, TaxCodeWidth);
    NextCode(taxCodes, TaxCodeWidth)
  }

  /** `generateNextLocationCode`: two-digit location codes. */
  function NextLocationCode(locationCodes: seq<string>): (code: string)
    ensures AllDigits(code) && |code| >= LocationCodeWidth
    ensures CastInteger(code) == NextNumber(locationCodes)
    ensures forall i :: 0 <= i < |locationCodes| ==> locationCodes[i] != code
  {
    NextCodeIsFresh(locationCodes, LocationCodeWidth);
    NextCode(locationCodes, LocationCodeWidth)
  }

  /** The first user id of an empty table. */
  lemma FirstUserId()
    ensures NextUserId([]) == "00001"
  {
    assert NextNumber([]) == 1;
    assert Decimal(1) == "1";
    assert NextCode([], UserIdWidth) == Repeat('0', 4) + "1";
    assert Repeat('0', 4) == "0000";
  }

  /** A zero followed by one digit is cast to that digit. */
  lemma CastOfPaddedDigit(d: nat)
    requires d < 10
    ensures CastInteger(['0', DigitChar(d)]) == d
  {
    var s := ['0', DigitChar(d)];
    LeadingZerosValue(1, [DigitChar(d)]);
    assert Repeat('0', 1) + [DigitChar(d)] == s;
    CastOfDigits(s);
    assert [DigitChar(d)][..0] == [];
  }

  /** With tax codes 01 and 02 stored, the next is 03. */
  lemma TaxCodeAfterTwo()
    ensures NextTaxCode(["01", "02"]) == "03"
  {
    var codes := ["01", "02"];
    assert DigitChar(1) == '1' && DigitChar(2) == '2';
    CastOfPaddedDigit(1);
    CastOfPaddedDigit(2);
    assert codes[..1] == ["01"];
    assert MaxCast(codes) == Some(2);
    assert Decimal(3) == "3";
    assert Repeat('0', 1) == "0";
  }

  /** After tax code 99 the successor 100 does not fit in two digits and is not cut. */
  lemma TaxCodeOutgrowsWidth()
    ensures NextTaxCode(["99"]) == "100"
  {
    assert LeadingDigits("9") == "9";
    assert LeadingDigits("99") == "99";
    assert "99"[..1] == "9" && "9"[..0] == "";
    assert DigitsValue("9") == 9;
    assert DigitsValue("99") == 10 * DigitsValue("9") + DigitValue('9');
    assert CastInteger("99") == 99;
    assert MaxCast(["99"]) == Some(99);
    assert Decimal(1) == "1";
    assert Decimal(10) == "10";
    assert Decimal(100) == "100";
  }
}
