/** The form state of the note editor pages and the request body they send. */
module NoteForm {
  /** The editable fields; the tags are one comma-separated string. */
  datatype Form = Form(title: string, content: string, category: string, tags: string)

  /** The body sent to the notes API. */
  datatype Payload = Payload(title: string, content: string, category: string, tags: seq<string>)

  /** A note template: prepared title, content, category and tag list. */
  datatype Template = Template(title: string, content: string, category: string, tags: seq<string>)

  /** The form of a new note before anything is typed. */
  const EmptyForm := Form("", "", "general", "")
}
