/**
 * The live statistics under the note editor: the content with `<...>` runs removed, its words, its
 * length and the reading time at 200 words a minute.
 */
module TextStats {
  import opened Sequences
  import opened Text

  /** The rest of `s` after its first `>`. */
  function AfterClose(s: string): (r: string)
    requires '>' in s
    ensures |r| < |s| && r == s[|s| - |r|..]
    ensures s[|s| - |r| - 1] == '>'
    ensures forall k :: 0 <= k < |s| - |r| - 1 ==> s[k] != '>'
    decreases |s|
  {
    if s[0] == '>' then s[1..] else AfterClose(s[1..])
  }

  /**
   * `s.replace(/<[^>]*>/g, '')`: scanning from the left, each `<` together with everything up to the
   * next `>` is removed; a `<` with no `>` after it is kept.
   */
  function StripTags(s: string): (r: string)
    ensures |r| <= |s|
    ensures forall c :: c in r ==> c in s
    ensures forall i, j :: 0 <= i < j < |r| && r[i] == '<' ==> r[j] != '>'
    decreases |s|
  {
    if s == [] then []
    else if s[0] == '<' && '>' in s[1..] then
      var rest := AfterClose(s[1..]);
      var r := StripTags(rest);
      assert forall c :: c in rest ==> c in s;
      r
    else
      var rest := StripTags(s[1..]);
      var r := [s[0]] + rest;
      assert forall j :: 1 <= j < |r| ==> r[j] in s[1..];
      r
  }

  /** Text in which no `<` is followed by a `>`. */
  predicate TagFree(s: string) {
    forall i, j :: 0 <= i < j < |s| && s[i] == '<' ==> s[j] != '>'
  }

  /** Stripping leaves text that holds no tag unchanged. */
  lemma {:induction false} StripTagFree(s: string)
    requires TagFree(s)
    ensures StripTags(s) == s
    decreases |s|
  {
    if s != [] {
      if s[0] == '<' {
        assert '>' !in s[1..] by {
          forall k | 0 <= k < |s[1..]| ensures s[1..][k] != '>' {
            assert s[1..][k] == s[k + 1];
          }
        }
      }
      assert TagFree(s[1..]) by {
        forall i, j | 0 <= i < j < |s[1..]| && s[1..][i] == '<' ensures s[1..][j] != '>' {
          assert s[1..][i] == s[i + 1] && s[1..][j] == s[j + 1];
        }
      }
      StripTagFree(s[1..]);
    }
  }

  /** The first `>` after a run without one ends that run. */
  lemma {:induction false} AfterCloseOf(m: string, b: string)
    requires '>' !in m
    ensures AfterClose(m + ">" + b) == b
    decreases |m|
  {
    if m == [] {
      assert m + ">" + b == ">" + b;
    } else {
      assert (m + ">" + b)[1..] == m[1..] + ">" + b;
      AfterCloseOf(m[1..], b);
    }
  }

  /** Text before the first `<` passes through unchanged. */
  lemma {:induction false} StripPlainPrefix(a: string, b: string)
    requires '<' !in a
    ensures StripTags(a + b) == a + StripTags(b)
    decreases |a|
  {
    if a == [] {
      assert a + b == b;
    } else {
      assert (a + b)[0] == a[0] && (a + b)[1..] == a[1..] + b;
      StripPlainPrefix(a[1..], b);
      assert a == [a[0]] + a[1..];
    }
  }

  /** A `<`, the text up to the next `>`, and that `>` are removed together. */
  lemma StripTagElement(m: string, b: string)
    requires '>' !in m
    ensures StripTags("<" + m + ">" + b) == StripTags(b)
  {
    var s := "<" + m + ">" + b;
    assert s[1..] == m + ">" + b;
    assert s[1 + |m|] == '>';
    AfterCloseOf(m, b);
  }

  /** A `<` with no `>` anywhere after it is kept. */
  lemma StripUnclosed(b: string)
    requires '>' !in b
    ensures StripTags("<" + b) == "<" + StripTags(b)
  {
    assert ("<" + b)[1..] == b;
  }

  /** Stripping twice is stripping once. */
  lemma StripIdempotent(s: string)
    ensures StripTags(StripTags(s)) == StripTags(s)
  {
    StripTagFree(StripTags(s));
  }

  predicate NonEmpty(w: string) {
    w != []
  }

  /**
   * `s.trim().split(/\s+/).filter(word => word.length > 0)`: splitting at every single white-space
   * character and dropping the empty pieces gives the same words as splitting at runs of it.
   */
  function Words(s: string): (r: seq<string>)
    ensures forall i :: 0 <= i < |r| ==> r[i] != [] && !exists k :: 0 <= k < |r[i]| && IsJsSpace(r[i][k])
  {
    Filter(Split(Trim(s), IsJsSpace), NonEmpty)
  }

  /** The words of `s` without the surrounding trim: a reference for counting. */
  function Pieces(s: string): seq<string> {
    Filter(Split(s, IsJsSpace), NonEmpty)
  }

  /** The number of positions that end a word: a non-space character followed by white space or the end. */
  function WordEnds(s: string): nat
    decreases |s|
  {
    if s == [] then 0
    else (if !IsJsSpace(s[0]) && (|s| == 1 || IsJsSpace(s[1])) then 1 else 0) + WordEnds(s[1..])
  }

  /** The first piece of a split is empty exactly when the text is empty or starts with white space. */
  lemma SplitHead(s: string)
    ensures Split(s, IsJsSpace)[0] == [] <==> s == [] || IsJsSpace(s[0])
  {
  }

  /** Counting the pieces counts the word ends. */
  lemma {:induction false} PiecesCount(s: string)
    ensures |Pieces(s)| == WordEnds(s)
    decreases |s|
  {
    if s != [] {
      var rest := Split(s[1..], IsJsSpace);
      PiecesCount(s[1..]);
      SplitHead(s[1..]);
      if IsJsSpace(s[0]) {
        assert Split(s, IsJsSpace) == [""] + rest;
        FilterAppend([""], rest, NonEmpty);
        FilterStep([""], NonEmpty, []);
      } else {
        var head := [s[0]] + rest[0];
        assert Split(s, IsJsSpace) == [head] + rest[1..];
        assert rest == [rest[0]] + rest[1..];
        FilterAppend([head], rest[1..], NonEmpty);
        FilterAppend([rest[0]], rest[1..], NonEmpty);
        FilterStep([head], NonEmpty, []);
        FilterStep([rest[0]], NonEmpty, []);
      }
    }
  }

  /** Leading white space adds no piece. */
  lemma {:induction false} PiecesSkipLead(lead: string, t: string)
    requires AllSpace(lead)
    ensures Pieces(lead + t) == Pieces(t)
    decreases |lead|
  {
    if lead != [] {
      var s := lead + t;
      assert s[1..] == lead[1..] + t;
      PiecesSkipLead(lead[1..], t);
      assert Split(s, IsJsSpace) == [""] + Split(s[1..], IsJsSpace);
      FilterAppend([""], Split(s[1..], IsJsSpace), NonEmpty);
      FilterStep([""], NonEmpty, []);
    } else {
      assert lead + t == t;
    }
  }

  /** Trailing white space adds no piece. */
  lemma {:induction false} PiecesSkipTrail(t: string, trail: string)
    requires AllSpace(trail)
    ensures Pieces(t + trail) == Pieces(t)
    decreases |trail|
  {
    if trail != [] {
      var c := trail[0];
      assert t + trail == t + [c] + trail[1..];
      SplitAtSeparator(t, c, trail[1..], IsJsSpace);
      FilterAppend(Split(t, IsJsSpace), Split(trail[1..], IsJsSpace), NonEmpty);
      assert trail[1..] + [] == trail[1..];
      PiecesSkipLead(trail[1..], []);
      assert Split([], IsJsSpace) == [""];
      FilterStep([""], NonEmpty, []);
    } else {
      assert t + trail == t;
    }
  }

  /** The trim before the split changes no word. */
  lemma WordsIgnoreTrim(s: string)
    ensures Words(s) == Pieces(s)
  {
    var t := Trim(s);
    var i := LeadEnd(s, 0);
    var lead, trail := s[..i], s[i + |t|..];
    ThreeParts(s, i, t);
    PiecesSkipLead(lead, t + trail);
    PiecesSkipTrail(t, trail);
  }

  /** The word count is the number of maximal runs of non-space characters. */
  lemma WordCountIsRuns(s: string)
    ensures |Words(s)| == WordEnds(s)
  {
    WordsIgnoreTrim(s);
    PiecesCount(s);
  }

  /** `Math.ceil(words / 200)`. */
  function ReadingMinutes(words: nat): (m: nat)
    ensures m == 0 <==> words == 0
    ensures words > 0 ==> 200 * (m - 1) < words <= 200 * m
  {
    (words + 199) / 200
  }

  datatype Counters = Counters(words: nat, characters: nat, readingMinutes: nat)

  /** The statistics effect: words, UTF-16 length and reading time of the content without tags. */
  function Statistics(content: string): (r: Counters)
    ensures var plain := StripTags(content);
      && r.words == WordEnds(plain)
      && r.characters == Utf16Length(plain)
      && (r.readingMinutes == 0 <==> r.words == 0)
      && (r.words > 0 ==> 200 * (r.readingMinutes - 1) < r.words <= 200 * r.readingMinutes)
  {
    var plain := StripTags(content);
    var words := |Words(plain)|;
    WordCountIsRuns(plain);
    Counters(words, Utf16Length(plain), ReadingMinutes(words))
  }
}
