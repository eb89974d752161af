/**
 * The tag text field of the note editor pages: a note's tags are edited as one comma-separated string,
 * parsed on submit (`split(',')`, `trim` each piece, drop empty pieces) and filled in from a tag list
 * with `join(', ')`.
 */
module TagStrings {
  import opened Sequences
  import opened Text

  predicate IsComma(c: char) {
    c == ','
  }

  predicate NonEmpty(t: string) {
    t != []
  }

  /** A tag a tag string can hold: not empty, not padded with white space, without a comma. */
  predicate IsPlainTag(t: string) {
    t != [] && IsTrimmed(t) && ',' !in t
  }

  /** `s.split(',').map(tag => tag.trim()).filter(tag => tag)`. */
  function ParseTags(s: string): (r: seq<string>)
    ensures forall i :: 0 <= i < |r| ==> IsPlainTag(r[i])
  {
    var pieces := Split(s, IsComma);
    var trimmed := TrimAll(pieces);
    var r := Filter(trimmed, NonEmpty);
    forall i | 0 <= i < |r| ensures IsPlainTag(r[i]) {
      assert r[i] in trimmed;
      var k :| 0 <= k < |trimmed| && trimmed[k] == r[i];
      forall c | c in r[i] ensures c != ',' {
        TrimChars(pieces[k], c);
        var m :| 0 <= m < |pieces[k]| && pieces[k][m] == c;
        assert !IsComma(pieces[k][m]);
      }
    }
    r
  }

  /** `tags.join(', ')`. */
  function JoinTags(tags: seq<string>): string {
    Join(tags, ", ")
  }

  /** A comma splits a tag string into two tag strings parsed independently. */
  lemma ParseAtComma(a: string, b: string)
    ensures ParseTags(a + [','] + b) == ParseTags(a) + ParseTags(b)
  {
    SplitAtSeparator(a, ',', b, IsComma);
    TrimAllAppend(Split(a, IsComma), Split(b, IsComma));
    FilterAppend(TrimAll(Split(a, IsComma)), TrimAll(Split(b, IsComma)), NonEmpty);
  }

  /** A string without commas parses to its trimmed self, or to nothing when that is empty. */
  lemma ParseNoComma(s: string)
    requires ',' !in s
    ensures ParseTags(s) == if Trim(s) == [] then [] else [Trim(s)]
  {
    SplitNoSeparator(s, IsComma);
    assert TrimAll([s]) == [Trim(s)];
    FilterStep([Trim(s)], NonEmpty, []);
  }

  /** White space alone parses to no tags. */
  lemma ParseBlank(pad: string)
    requires AllSpace(pad)
    ensures ParseTags(pad) == []
  {
    assert ',' !in pad by {
      forall k | 0 <= k < |pad| ensures pad[k] != ',' {
        assert IsJsSpace(pad[k]);
      }
    }
    ParseNoComma(pad);
    TrimEmpty(pad);
  }

  /** One plain tag after white space parses to that tag. */
  lemma ParseSingle(pad: string, t: string)
    requires AllSpace(pad) && IsPlainTag(t)
    ensures ParseTags(pad + t) == [t]
  {
    assert ',' !in pad + t by {
      forall k | 0 <= k < |pad + t| ensures (pad + t)[k] != ',' {
        if k < |pad| {
          assert IsJsSpace(pad[k]);
        } else {
          assert (pad + t)[k] == t[k - |pad|];
        }
      }
    }
    ParseNoComma(pad + t);
    TrimLeadingSpace(pad, t);
  }

  /** The text after the first tag of a joined list starts at a comma. */
  lemma JoinStep(pad: string, t: string, tail: string)
    ensures pad + (t + ", " + tail) == (pad + t) + [','] + (" " + tail)
  {
  }

  /** A plain tag in front of a joined list that parses back is parsed back with it. */
  lemma ParseJoinCons(pad: string, t: string, rest: seq<string>)
    requires AllSpace(pad) && IsPlainTag(t) && rest != []
    requires ParseTags(" " + JoinTags(rest)) == rest
    ensures ParseTags(pad + JoinTags([t] + rest)) == [t] + rest
  {
    var tail := JoinTags(rest);
    assert ([t] + rest)[1..] == rest;
    assert JoinTags([t] + rest) == t + ", " + tail;
    JoinStep(pad, t, tail);
    ParseAtComma(pad + t, " " + tail);
    ParseSingle(pad, t);
  }

  /** The joined list, after any white space, parses back to the list. */
  lemma {:induction false} ParsePaddedJoin(pad: string, tags: seq<string>)
    requires AllSpace(pad)
    requires forall i :: 0 <= i < |tags| ==> IsPlainTag(tags[i])
    ensures ParseTags(pad + JoinTags(tags)) == tags
    decreases |tags|
  {
    if tags == [] {
      assert pad + JoinTags(tags) == pad;
      ParseBlank(pad);
    } else if |tags| == 1 {
      assert pad + JoinTags(tags) == pad + tags[0];
      ParseSingle(pad, tags[0]);
    } else {
      var t, rest := tags[0], tags[1..];
      assert AllSpace(" ");
      ParsePaddedJoin(" ", rest);
      assert tags == [t] + rest;
      ParseJoinCons(pad, t, rest);
    }
  }

  /** Filling the field from a list of plain tags and submitting it gives back the same list. */
  lemma JoinParseRoundTrip(tags: seq<string>)
    requires forall i :: 0 <= i < |tags| ==> IsPlainTag(tags[i])
    ensures ParseTags(JoinTags(tags)) == tags
  {
    assert "" + JoinTags(tags) == JoinTags(tags);
    ParsePaddedJoin("", tags);
  }

  /** A parsed tag string, joined and parsed once more, is the same list: parsing settles after one pass. */
  lemma ParseJoinParse(s: string)
    ensures ParseTags(JoinTags(ParseTags(s))) == ParseTags(s)
  {
    JoinParseRoundTrip(ParseTags(s));
  }
}
