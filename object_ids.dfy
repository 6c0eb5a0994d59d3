/**
 * Document identifiers.
 *
 * Every stored document has an ObjectId, a 96-bit value written on the wire as
 * 24 hexadecimal digits.  Request parameters carry ids as text; the handlers
 * first ask the ObjectId library whether the text is a valid id and then query
 * with it.  Here an id is a natural number and the text form is parsed and
 * printed explicitly.
 */
module ObjectIds {
  import opened Wrappers

  type Id = nat

  /** Number of hexadecimal digits in the text form of an ObjectId. */
  const IdDigits: nat := 24

  function Pow16(n: nat): (p: nat)
    ensures p >= 1
  {
    if n == 0 then 1 else 16 * Pow16(n - 1)
  }

  predicate IsHexDigit(c: char) {
    ('0' <= c <= '9') || ('a' <= c <= 'f') || ('A' <= c <= 'F')
  }

  predicate AllHex(s: string) {
    forall i :: 0 <= i < |s| ==> IsHexDigit(s[i])
  }

  function DigitValue(c: char): (d: nat)
    requires IsHexDigit(c)
    ensures d < 16
  {
    if '0' <= c <= '9' then c as int - '0' as int
    else if 'a' <= c <= 'f' then c as int - 'a' as int + 10
    else c as int - 'A' as int + 10
  }

  /** The lower-case digit for a value below 16 (ObjectId's `toString()` is lower case). */
  function HexDigit(d: nat): (c: char)
    requires d < 16
    ensures IsHexDigit(c) && DigitValue(c) == d
    ensures !('A' <= c <= 'F')
  {
    if d < 10 then ('0' as int + d) as char else ('a' as int + d - 10) as char
  }

  /** The number a string of hexadecimal digits denotes (most significant first). */
  function HexValue(s: string): (n: nat)
    requires AllHex(s)
    ensures n < Pow16(|s|)
  {
    if s == [] then 0
    else
      var init := s[..|s| - 1];
      assert AllHex(init);
      HexValue(init) * 16 + DigitValue(s[|s| - 1])
  }

  /** What the ObjectId library accepts as an id given as text: exactly 24 hex digits. */
  predicate IsObjectIdText(s: string) {
    |s| == IdDigits && AllHex(s)
  }

  /** Casting request text to an ObjectId: `None` is the cast failure. */
  function ParseObjectId(s: string): (r: Option<Id>)
    ensures r.Some? <==> IsObjectIdText(s)
    ensures r.Some? ==> r.value < Pow16(IdDigits)
  {
    if IsObjectIdText(s) then Some(HexValue(s)) else None
  }

  /** `width` lower-case hex digits of `n`, most significant first (`toString()` for width 24). */
  function IdText(n: nat, width: nat): (s: string)
    ensures |s| == width && AllHex(s)
  {
    if width == 0 then "" else IdText(n / 16, width - 1) + [HexDigit(n % 16)]
  }

  /** The digits `IdText` prints denote `n` again, when `n` fits in `width` digits. */
  lemma {:induction false} HexValueOfIdText(n: nat, width: nat)
    requires n < Pow16(width)
    ensures HexValue(IdText(n, width)) == n
  {
    if width > 0 {
      var s := IdText(n, width);
      assert s[..|s| - 1] == IdText(n / 16, width - 1);
      HexValueOfIdText(n / 16, width - 1);
    }
  }

  /** Printing an id and parsing it back gives the id: `ObjectId(id.toString())` is `id`. */
  lemma ParseIdText(id: Id)
    requires id < Pow16(IdDigits)
    ensures ParseObjectId(IdText(id, IdDigits)) == Some(id)
  {
    HexValueOfIdText(id, IdDigits);
  }
}
