/** Storage accounting: the UTF-8 size of a user's notes, its report in megabytes, and the quota. */
module Storage {
  import opened Text
  import opened NoteModel

  const BytesPerMB := 1048576
  /** The quota, 1 GB written as 1024 MB. */
  const LimitMB := 1024

  /** The bytes of a tag list, each tag in UTF-8. */
  function TagBytes(tags: seq<string>): nat
    decreases |tags|
  {
    if tags == [] then 0 else TagBytes(tags[..|tags| - 1]) + Utf8Length(tags[|tags| - 1])
  }

  /** A note's size: its title, content and tags in UTF-8. */
  function NoteBytes(n: Note): nat {
    Utf8Length(n.title) + Utf8Length(n.content) + TagBytes(n.tags)
  }

  function TotalBytes(notes: seq<Note>): nat
    decreases |notes|
  {
    if notes == [] then 0 else TotalBytes(notes[..|notes| - 1]) + NoteBytes(notes[|notes| - 1])
  }

  /** One more note adds its size. */
  lemma TotalBytesStep(notes: seq<Note>, i: nat)
    requires i < |notes|
    ensures TotalBytes(notes[..i + 1]) == TotalBytes(notes[..i]) + NoteBytes(notes[i])
  {
    assert notes[..i + 1][..i] == notes[..i];
  }

  /** One more tag adds its bytes. */
  lemma TagBytesStep(tags: seq<string>, k: nat)
    requires k < |tags|
    ensures TagBytes(tags[..k + 1]) == TagBytes(tags[..k]) + Utf8Length(tags[k])
  {
    assert tags[..k + 1][..k] == tags[..k];
  }

  lemma {:induction false} TotalBytesAppend(s: seq<Note>, t: seq<Note>)
    ensures TotalBytes(s + t) == TotalBytes(s) + TotalBytes(t)
    decreases |t|
  {
    if t == [] {
      assert s + t == s;
    } else {
      assert (s + t)[..|s + t| - 1] == s + t[..|t| - 1];
      TotalBytesAppend(s, t[..|t| - 1]);
    }
  }

  /**
   * `Math.round((bytes / (1024 * 1024)) * 100)`: the size in hundredths of a megabyte, rounded to
   * the nearest with halves up.
   */
  function RoundedHundredths(bytes: nat): (h: nat)
    ensures h * BytesPerMB <= 100 * bytes + BytesPerMB / 2 < (h + 1) * BytesPerMB
  {
    (100 * bytes + BytesPerMB / 2) / BytesPerMB
  }

  /**
   * The create handlers' gate: the reported usage in megabytes plus the new note's exact size in
   * megabytes is over the limit.
   */
  predicate ExceedsQuota(usedHundredths: nat, newBytes: nat) {
    usedHundredths * BytesPerMB + 100 * newBytes > LimitMB * 100 * BytesPerMB
  }

  /** The integer gate is the comparison `currentStorage + newNoteSize > 1024` on exact numbers. */
  lemma ExceedsQuotaMeaning(usedHundredths: nat, newBytes: nat)
    ensures ExceedsQuota(usedHundredths, newBytes) <==>
      (usedHundredths as real) / 100.0 + (newBytes as real) / (BytesPerMB as real) > LimitMB as real
  {
    var u := usedHundredths as real;
    var b := newBytes as real;
    var m := BytesPerMB as real;
    assert u / 100.0 + b / m == (u * m + 100.0 * b) / (100.0 * m);
  }
}
