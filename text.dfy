/**
 * The JavaScript string built-ins the application relies on, over strings of Unicode scalar values:
 * `trim`, ASCII `toLowerCase`, `split` on one separator character, `Array.prototype.join`,
 * `Buffer.byteLength(s, 'utf8')` and the UTF-16 `length`.
 */
module Text {

  /** ECMAScript WhiteSpace and LineTerminator: what `trim` strips and what the regex class `\s` matches. */
  predicate IsJsSpace(c: char) {
    c == '\t' || c == '\n' || c == '\U{000B}' || c == '\U{000C}' || c == '\r' || c == ' '
    || c == '\U{00A0}' || c == '\U{1680}' || ('\U{2000}' <= c <= '\U{200A}')
    || c == '\U{2028}' || c == '\U{2029}' || c == '\U{202F}' || c == '\U{205F}'
    || c == '\U{3000}' || c == '\U{FEFF}'
  }

  predicate AllSpace(s: string) {
    forall i :: 0 <= i < |s| ==> IsJsSpace(s[i])
  }

  /** Neither the first nor the last character is white space. */
  predicate IsTrimmed(s: string) {
    s == [] || (!IsJsSpace(s[0]) && !IsJsSpace(s[|s| - 1]))
  }

  /** The first position at or after `k` that does not hold white space, or the end of `s`. */
  function LeadEnd(s: string, k: nat): (n: nat)
    requires k <= |s|
    ensures k <= n <= |s|
    ensures forall m :: k <= m < n ==> IsJsSpace(s[m])
    ensures n < |s| ==> !IsJsSpace(s[n])
    decreases |s| - k
  {
    if k < |s| && IsJsSpace(s[k]) then LeadEnd(s, k + 1) else k
  }

  /** The position after the last character of `s[lo..j]` that is not white space, or `lo`. */
  function TrailStart(s: string, lo: nat, j: nat): (n: nat)
    requires lo <= j <= |s|
    ensures lo <= n <= j
    ensures forall m :: n <= m < j ==> IsJsSpace(s[m])
    ensures lo < n ==> !IsJsSpace(s[n - 1])
    decreases j
  {
    if lo < j && IsJsSpace(s[j - 1]) then TrailStart(s, lo, j - 1) else j
  }

  /** The properties of `LeadEnd` determine it. */
  lemma LeadEndUnique(s: string, k: nat, n: nat)
    requires k <= n <= |s|
    requires forall m :: k <= m < n ==> IsJsSpace(s[m])
    requires n < |s| ==> !IsJsSpace(s[n])
    ensures LeadEnd(s, k) == n
  {
  }

  /** The properties of `TrailStart` determine it. */
  lemma TrailStartUnique(s: string, lo: nat, j: nat, n: nat)
    requires lo <= n <= j <= |s|
    requires forall m :: n <= m < j ==> IsJsSpace(s[m])
    requires lo < n ==> !IsJsSpace(s[n - 1])
    ensures TrailStart(s, lo, j) == n
  {
  }

  /** JavaScript's `String.prototype.trim`: the contiguous middle of `s` without white space at either end. */
  function Trim(s: string): (r: string)
    ensures IsTrimmed(r)
    ensures var i := LeadEnd(s, 0);
      i + |r| <= |s| && r == s[i..i + |r|] && AllSpace(s[..i]) && AllSpace(s[i + |r|..])
  {
    var i := LeadEnd(s, 0);
    s[i..TrailStart(s, i, |s|)]
  }

  lemma TrimOfTrimmed(s: string)
    requires IsTrimmed(s)
    ensures Trim(s) == s
  {
    LeadEndUnique(s, 0, 0);
    TrailStartUnique(s, 0, |s|, |s|);
  }

  /** `trim` is idempotent, so a trimming setter after a trimming handler changes nothing. */
  lemma TrimIdempotent(s: string)
    ensures Trim(Trim(s)) == Trim(s)
  {
    TrimOfTrimmed(Trim(s));
  }

  /** A string trims to the empty string exactly when it is all white space. */
  lemma TrimEmpty(s: string)
    ensures Trim(s) == [] <==> AllSpace(s)
  {
    var i := LeadEnd(s, 0);
    if Trim(s) == [] {
      forall k | 0 <= k < |s| ensures IsJsSpace(s[k]) {
        assert s[..i][k] == s[k];
      }
    } else {
      assert Trim(s)[0] == s[i];
    }
  }

  /** White space on both sides of a trimmed, non-empty string is what `trim` removes. */
  lemma TrimSurrounded(lead: string, t: string, trail: string)
    requires AllSpace(lead) && AllSpace(trail) && IsTrimmed(t) && t != []
    ensures Trim(lead + t + trail) == t
  {
    var s := lead + t + trail;
    var i := |lead|;
    var j := |lead| + |t|;
    assert forall m :: 0 <= m < i ==> s[m] == lead[m];
    assert forall m :: j <= m < |s| ==> s[m] == trail[m - j];
    assert s[i] == t[0] && s[j - 1] == t[|t| - 1];
    LeadEndUnique(s, 0, i);
    TrailStartUnique(s, i, |s|, j);
    assert s[i..j] == t;
  }

  /** Leading white space in front of a trimmed string is removed by `trim`. */
  lemma TrimLeadingSpace(lead: string, t: string)
    requires AllSpace(lead) && IsTrimmed(t) && t != []
    ensures Trim(lead + t) == t
  {
    assert lead + t + [] == lead + t;
    TrimSurrounded(lead, t, []);
  }

  /** Every character of `trim(s)` is a character of `s`. */
  lemma TrimChars(s: string, c: char)
    requires c in Trim(s)
    ensures c in s
  {
    var r := Trim(s);
    var i := LeadEnd(s, 0);
    var k :| 0 <= k < |r| && r[k] == c;
    assert s[i + k] == c;
  }

  /** `strings.map(s => s.trim())`: every string trimmed, in its place. */
  function TrimAll(strings: seq<string>): (r: seq<string>)
    ensures |r| == |strings|
    ensures forall i :: 0 <= i < |r| ==> r[i] == Trim(strings[i])
  {
    seq(|strings|, i requires 0 <= i < |strings| => Trim(strings[i]))
  }

  lemma TrimAllAppend(a: seq<string>, b: seq<string>)
    ensures TrimAll(a + b) == TrimAll(a) + TrimAll(b)
  {
  }

  function LowerChar(c: char): char {
    if 'A' <= c <= 'Z' then (c as int + 32) as char else c
  }

  /** `toLowerCase` on the ASCII letters; every other character is kept. */
  function ToLowerAscii(s: string): (r: string)
    ensures |r| == |s|
    ensures forall i :: 0 <= i < |s| ==> r[i] == LowerChar(s[i])
  {
    seq(|s|, i requires 0 <= i < |s| => LowerChar(s[i]))
  }

  lemma LowerIdempotent(s: string)
    ensures ToLowerAscii(ToLowerAscii(s)) == ToLowerAscii(s)
  {
  }

  /** Lowercasing changes no white space, so a trimmed string stays trimmed. */
  lemma LowerKeepsTrimmed(s: string)
    requires IsTrimmed(s)
    ensures IsTrimmed(ToLowerAscii(s))
  {
  }

  /** Bytes per character in UTF-8, as in section 3 of RFC 3629. */
  function Utf8CharLength(c: char): (n: nat)
    ensures 1 <= n <= 4
    ensures n == 1 <==> c as int < 0x80
  {
    if c as int < 0x80 then 1
    else if c as int < 0x800 then 2
    else if c as int < 0x10000 then 3
    else 4
  }

  /** `Buffer.byteLength(s, 'utf8')`. */
  function Utf8Length(s: string): (n: nat)
    ensures |s| <= n <= 4 * |s|
    decreases |s|
  {
    if s == [] then 0 else Utf8Length(s[..|s| - 1]) + Utf8CharLength(s[|s| - 1])
  }

  lemma {:induction false} Utf8LengthAppend(s: string, t: string)
    ensures Utf8Length(s + t) == Utf8Length(s) + Utf8Length(t)
    decreases |t|
  {
    if t == [] {
      assert s + t == s;
    } else {
      assert (s + t)[..|s + t| - 1] == s + t[..|t| - 1];
      Utf8LengthAppend(s, t[..|t| - 1]);
    }
  }

  /** A string of ASCII characters has one byte per character. */
  lemma {:induction false} Utf8LengthAscii(s: string)
    requires forall i :: 0 <= i < |s| ==> s[i] as int < 0x80
    ensures Utf8Length(s) == |s|
    decreases |s|
  {
    if s != [] {
      Utf8LengthAscii(s[..|s| - 1]);
    }
  }

  /** JavaScript's `length`: UTF-16 code units, two for a character outside the Basic Multilingual Plane. */
  function Utf16Length(s: string): (n: nat)
    ensures |s| <= n <= 2 * |s|
    decreases |s|
  {
    if s == [] then 0 else Utf16Length(s[..|s| - 1]) + (if s[|s| - 1] as int < 0x10000 then 1 else 2)
  }

  /**
   * `s.split(sep)` for a one-character separator given as a predicate: the pieces between separators,
   * at least one (an empty string splits into one empty piece).
   */
  function Split(s: string, isSep: char -> bool): (r: seq<string>)
    ensures |r| >= 1
    ensures forall i, k :: 0 <= i < |r| && 0 <= k < |r[i]| ==> !isSep(r[i][k]) && r[i][k] in s
    decreases |s|
  {
    if s == [] then [""]
    else
      var rest := Split(s[1..], isSep);
      if isSep(s[0]) then [""] + rest
      else
        var r := [[s[0]] + rest[0]] + rest[1..];
        assert forall i :: 1 <= i < |r| ==> r[i] == rest[i];
        r
  }

  /** Splitting at a separator splits each side independently. */
  lemma {:induction false} SplitAtSeparator(a: string, c: char, b: string, isSep: char -> bool)
    requires isSep(c)
    ensures Split(a + [c] + b, isSep) == Split(a, isSep) + Split(b, isSep)
    decreases |a|
  {
    if a == [] {
      assert a + [c] + b == [c] + b;
      assert ([c] + b)[1..] == b;
    } else {
      assert (a + [c] + b)[1..] == a[1..] + [c] + b;
      SplitAtSeparator(a[1..], c, b, isSep);
    }
  }

  /** A string without separators is one piece. */
  lemma {:induction false} SplitNoSeparator(s: string, isSep: char -> bool)
    requires forall k :: 0 <= k < |s| ==> !isSep(s[k])
    ensures Split(s, isSep) == [s]
    decreases |s|
  {
    if s != [] {
      SplitNoSeparator(s[1..], isSep);
      assert s == [s[0]] + s[1..];
    }
  }

  /** `Array.prototype.join(sep)`. */
  function Join(xs: seq<string>, sep: string): string
    decreases |xs|
  {
    if xs == [] then ""
    else if |xs| == 1 then xs[0]
    else xs[0] + sep + Join(xs[1..], sep)
  }

  function DigitChar(d: nat): char
    requires d < 10
  {
    ('0' as int + d) as char
  }

  function NatToDecimal(n: nat): (r: string)
    ensures r != []
    ensures forall i :: 0 <= i < |r| ==> '0' <= r[i] <= '9'
  {
    if n < 10 then [DigitChar(n)] else NatToDecimal(n / 10) + [DigitChar(n % 10)]
  }

  /** `String(n)` for an integer of ordinary size. */
  function IntToDecimal(n: int): string {
    if n < 0 then "-" + NatToDecimal(-n) else NatToDecimal(n)
  }
}
