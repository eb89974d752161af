/** The new-note page: submitting the form, clearing the draft and starting from a template. */
module CreateNotePage {
  import opened Wrappers
  import opened Text
  import opened TagStrings
  import opened NoteForm

  /**
   * `handleSubmit`: nothing is sent when the title is blank; otherwise the form is sent as it is, with
   * the tag string parsed into a list.
   */
  function CreateSubmit(form: Form): (r: Option<Payload>)
    ensures r.None? <==> AllSpace(form.title)
    ensures r.Some? ==>
      && r.value.title == form.title && r.value.content == form.content && r.value.category == form.category
      && (forall i :: 0 <= i < |r.value.tags| ==> IsPlainTag(r.value.tags[i]))
      && r.value.tags == ParseTags(form.tags)
  {
    TrimEmpty(form.title);
    if Trim(form.title) == [] then None
    else Some(Payload(form.title, form.content, form.category, ParseTags(form.tags)))
  }

  /** `clearDraft`: a confirmed clear resets the form; a declined one keeps it. */
  function ClearDraft(form: Form, confirmed: bool): (r: Form)
    ensures confirmed ==> r.title == "" && r.content == "" && r.category == "general" && r.tags == ""
    ensures !confirmed ==> r == form
  {
    if confirmed then EmptyForm else form
  }

  /** A cleared form cannot be submitted. */
  lemma ClearedFormNotSent(form: Form)
    ensures CreateSubmit(ClearDraft(form, true)).None?
  {
    assert AllSpace(ClearDraft(form, true).title);
  }

  /** `handleUseTemplate`: the template's fields, with its tags joined by `", "`. */
  function UseTemplate(t: Template): (r: Form)
    ensures r.title == t.title && r.content == t.content && r.category == t.category
    ensures r.tags == JoinTags(t.tags)
  {
    Form(t.title, t.content, t.category, JoinTags(t.tags))
  }

  /** Submitting a template unchanged sends the template, its tag list included. */
  lemma TemplateSubmit(t: Template)
    requires !AllSpace(t.title)
    requires forall i :: 0 <= i < |t.tags| ==> IsPlainTag(t.tags[i])
    ensures CreateSubmit(UseTemplate(t)) == Some(Payload(t.title, t.content, t.category, t.tags))
  {
    JoinParseRoundTrip(t.tags);
  }

  /** The tag lists of the seven bundled templates. */
  const TemplateTagLists: seq<seq<string>> := [
    ["meeting", "work", "minutes"],
    ["project", "planning", "milestones"],
    ["journal", "daily", "reflection"],
    ["shopping", "list", "groceries"],
    ["study", "learning", "notes"],
    ["event", "planning", "checklist"],
    ["ideas", "brainstorming", "innovation"]]

  /** A word of lower-case ASCII letters is a plain tag. */
  lemma LowerWordPlain(w: string)
    requires w != [] && forall k :: 0 <= k < |w| ==> 'a' <= w[k] <= 'z'
    ensures IsPlainTag(w)
  {
  }

  /** Every bundled template's tags survive the join and the parse. */
  lemma TemplateTagsRoundTrip()
    ensures forall i :: 0 <= i < |TemplateTagLists| ==>
      ParseTags(JoinTags(TemplateTagLists[i])) == TemplateTagLists[i]
  {
    forall i | 0 <= i < |TemplateTagLists| ensures ParseTags(JoinTags(TemplateTagLists[i])) == TemplateTagLists[i] {
      var tags := TemplateTagLists[i];
      forall j | 0 <= j < |tags| ensures IsPlainTag(tags[j]) {
        LowerWordPlain(tags[j]);
      }
      JoinParseRoundTrip(tags);
    }
  }
}
