/** The edit page: filling the form from a fetched note and submitting the update. */
module EditNotePage {
  import opened Text
  import opened TagStrings
  import opened NoteForm
  import opened NoteModel

  /**
   * `fetchNote`: the form takes the note's fields, an empty category falls back to `general`, and the
   * tags are joined by `", "`.
   */
  function FormFromNote(n: Note): (r: Form)
    ensures r.title == n.title && r.content == n.content && r.tags == JoinTags(n.tags)
    ensures r.category == (if n.category == "" then DefaultCategory else n.category)
  {
    Form(n.title, n.content, if n.category == "" then DefaultCategory else n.category, JoinTags(n.tags))
  }

  datatype EditOutcome = TitleRequired | Send(payload: Payload)

  /**
   * `handleSubmit`: a blank title sets the "Title is required" error and sends nothing; otherwise the
   * title is trimmed, the content sent as typed, the category lowercased and the tag string parsed.
   */
  function EditSubmit(form: Form): (r: EditOutcome)
    ensures r.TitleRequired? <==> AllSpace(form.title)
    ensures r.Send? ==>
      && r.payload.title == Trim(form.title) && r.payload.title != [] && IsTrimmed(r.payload.title)
      && r.payload.content == form.content
      && r.payload.category == ToLowerAscii(form.category)
      && r.payload.tags == ParseTags(form.tags)
      && (forall i :: 0 <= i < |r.payload.tags| ==> IsPlainTag(r.payload.tags[i]))
  {
    TrimEmpty(form.title);
    if Trim(form.title) == [] then TitleRequired
    else Send(Payload(Trim(form.title), form.content, ToLowerAscii(form.category), ParseTags(form.tags)))
  }

  /** Loading a note and submitting it unchanged sends its tags back as they were stored. */
  lemma LoadResubmit(n: Note)
    requires !AllSpace(n.title)
    requires forall i :: 0 <= i < |n.tags| ==> IsPlainTag(n.tags[i])
    ensures EditSubmit(FormFromNote(n))
      == Send(Payload(Trim(n.title), n.content, ToLowerAscii(FormFromNote(n).category), n.tags))
  {
    JoinParseRoundTrip(n.tags);
  }

  /** A string without upper-case ASCII letters is its own lower case. */
  lemma {:induction false} LowerOfLower(s: string)
    requires forall k :: 0 <= k < |s| ==> !('A' <= s[k] <= 'Z')
    ensures ToLowerAscii(s) == s
  {
    assert forall k :: 0 <= k < |s| ==> ToLowerAscii(s)[k] == s[k];
  }

  /** Every value of the category enum is lower case. */
  lemma CategoriesLower(c: string)
    requires c in Categories
    ensures ToLowerAscii(c) == c
  {
    var i :| 0 <= i < |Categories| && Categories[i] == c;
    LowerOfLower(c);
  }

  /**
   * A stored note (trimmed title, a listed category) with plain tags, loaded and submitted unchanged,
   * sends exactly its own fields: an edit that touches nothing changes nothing.
   */
  lemma StoredNoteResubmit(n: Note)
    requires IsValid(n) && IsTrimmed(n.title)
    requires forall i :: 0 <= i < |n.tags| ==> IsPlainTag(n.tags[i])
    ensures EditSubmit(FormFromNote(n)) == Send(Payload(n.title, n.content, n.category, n.tags))
  {
    TrimEmpty(n.title);
    TrimOfTrimmed(n.title);
    assert n.category != "";
    CategoriesLower(n.category);
    LoadResubmit(n);
  }
}
