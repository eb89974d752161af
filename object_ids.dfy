/**
 * Note identifiers. A MongoDB ObjectId is a 96-bit number written as 24 hexadecimal digits; the
 * handlers receive it as a URL segment and cast it, accepting either case of the letters.
 */
module ObjectIds {
  import opened Wrappers

  const HexDigits := 24

  function Pow16(k: nat): (p: nat)
    ensures p >= 1
  {
    if k == 0 then 1 else 16 * Pow16(k - 1)
  }

  /** Every id is below this bound. */
  const IdSpace := Pow16(HexDigits)

  predicate IsHexDigit(c: char) {
    ('0' <= c <= '9') || ('a' <= c <= 'f') || ('A' <= c <= 'F')
  }

  function HexValue(c: char): (d: nat)
    requires IsHexDigit(c)
    ensures d < 16
  {
    if '0' <= c <= '9' then c as int - '0' as int
    else if 'a' <= c <= 'f' then c as int - 'a' as int + 10
    else c as int - 'A' as int + 10
  }

  function HexChar(d: nat): (c: char)
    requires d < 16
    ensures IsHexDigit(c) && HexValue(c) == d
  {
    if d < 10 then ('0' as int + d) as char else ('a' as int + d - 10) as char
  }

  predicate AllHex(s: string) {
    forall i :: 0 <= i < |s| ==> IsHexDigit(s[i])
  }

  function HexToNat(s: string): (n: nat)
    requires AllHex(s)
    ensures n < Pow16(|s|)
    decreases |s|
  {
    if s == [] then 0 else 16 * HexToNat(s[..|s| - 1]) + HexValue(s[|s| - 1])
  }

  /** The `k` lower-case hexadecimal digits of `n`. */
  function NatToHex(n: nat, k: nat): (s: string)
    requires n < Pow16(k)
    ensures |s| == k && AllHex(s)
    decreases k
  {
    if k == 0 then ""
    else
      assert n / 16 < Pow16(k - 1);
      NatToHex(n / 16, k - 1) + [HexChar(n % 16)]
  }

  /** The cast of a URL segment to an ObjectId: `None` for a string that is not 24 hexadecimal digits. */
  function ParseObjectId(s: string): (r: Option<nat>)
    ensures r.Some? <==> |s| == HexDigits && AllHex(s)
    ensures r.Some? ==> r.value < IdSpace
  {
    if |s| == HexDigits && AllHex(s) then Some(HexToNat(s)) else None
  }

  /** An id as MongoDB prints it. */
  function FormatObjectId(n: nat): (s: string)
    requires n < IdSpace
    ensures |s| == HexDigits
  {
    NatToHex(n, HexDigits)
  }

  /** `mongoose.Types.ObjectId.isValid` on a string, for the 24-digit form. */
  predicate IsValidObjectId(s: string) {
    ParseObjectId(s).Some?
  }

  lemma {:induction false} HexRoundTrip(n: nat, k: nat)
    requires n < Pow16(k)
    ensures HexToNat(NatToHex(n, k)) == n
    decreases k
  {
    if k > 0 {
      assert n / 16 < Pow16(k - 1);
      HexRoundTrip(n / 16, k - 1);
      var s := NatToHex(n, k);
      assert s[..|s| - 1] == NatToHex(n / 16, k - 1);
    }
  }

  /** An id printed in a URL is cast back to the same id. */
  lemma ParseFormatRoundTrip(n: nat)
    requires n < IdSpace
    ensures ParseObjectId(FormatObjectId(n)) == Some(n)
  {
    HexRoundTrip(n, HexDigits);
  }
}
