/**
 * What the handlers of both variants share: the fields of a request body, the title guard of the
 * create handlers, and the lookup of a note by the id in the path followed by the ownership check.
 */
module Requests {
  import opened Wrappers
  import opened Text
  import opened Json
  import opened NoteModel
  import opened Queries
  import opened Http
  import opened ObjectIds

  /** The body fields the handlers destructure; `None` is a field that is absent (`undefined`). */
  datatype Body = Body(title: Option<Json>, content: Option<Json>, tags: Option<Json>, category: Option<Json>)

  datatype TitleCheck = TitleMissing | TitleNotString | TitleOk(raw: string)

  /**
   * `if (!title || title.trim() === '')`: a falsy or blank title is refused; a truthy title that is not
   * a string makes `.trim()` throw.
   */
  function CheckTitle(title: Option<Json>): (r: TitleCheck)
    ensures r.TitleMissing? <==>
      title.None? || !Truthy(title.value) || (title.value.JStr? && Trim(title.value.s) == "")
    ensures r.TitleNotString? <==> title.Some? && Truthy(title.value) && !title.value.JStr?
    ensures r.TitleOk? ==> title == Some(JStr(r.raw)) && Trim(r.raw) != ""
  {
    if title.None? || !Truthy(title.value) then TitleMissing
    else if !title.value.JStr? then TitleNotString
    else if Trim(title.value.s) == "" then TitleMissing
    else TitleOk(title.value.s)
  }

  /**
   * A field destructured with a default and then used as a string: the default when absent, the
   * string when it is one, and `None` (the string method throws) otherwise.
   */
  function StringOr(field: Option<Json>, default: string): (r: Option<string>)
    ensures field.None? ==> r == Some(default)
    ensures field.Some? ==> r == StringArg(field.value)
  {
    if field.None? then Some(default) else StringArg(field.value)
  }

  /** What a create handler does after its checks: give up with a failure, or save a new note. */
  datatype CreatePlan = Reject(failure: Failure) | Build(note: Note)

  /** The outcome of resolving `/:id` for a requester. */
  datatype Access = Denied(failure: Failure) | Granted(at: nat)

  /**
   * Parse the id, look the note up, then compare owners. A malformed id fails with `malformed`
   * (each variant chooses its own), an absent note with 404 and only then a foreign note with 403.
   */
  function Resolve(docs: seq<Note>, requester: UserId, id: string, malformed: Failure): (r: Access)
    ensures ParseObjectId(id).None? ==> r == Denied(malformed)
    ensures ParseObjectId(id).Some? ==>
      var key := ParseObjectId(id).value;
      && (r == Denied(NotFound) <==> forall j :: 0 <= j < |docs| ==> docs[j].id != key)
      && (r == Denied(Forbidden) <==> IndexOf(docs, key).Some? && docs[IndexOf(docs, key).value].owner != requester)
      && (r.Granted? <==> IndexOf(docs, key).Some? && docs[IndexOf(docs, key).value].owner == requester)
    ensures r.Granted? ==> r.at < |docs| && Some(docs[r.at].id) == ParseObjectId(id) && docs[r.at].owner == requester
  {
    match ParseObjectId(id)
    case None => Denied(malformed)
    case Some(key) =>
      match Authorize(docs, requester, key)
      case Missing => Denied(NotFound)
      case NotOwner => Denied(Forbidden)
      case Owned(at) => Granted(at)
  }

  /**
   * The order of the checks: with unique ids, a stored note with the requested id is never reported
   * missing, and it is granted exactly to its owner.
   */
  lemma ResolveStored(docs: seq<Note>, requester: UserId, j: nat, malformed: Failure)
    requires UniqueIds(docs) && j < |docs| && docs[j].id < IdSpace
    ensures var r := Resolve(docs, requester, FormatObjectId(docs[j].id), malformed);
      r == if docs[j].owner == requester then Granted(j) else Denied(Forbidden)
  {
    ParseFormatRoundTrip(docs[j].id);
    AuthorizeUnique(docs, requester, docs[j].id, j);
  }

  /** Replacing the resolved note by one with the same id and owner keeps it resolvable at the same place. */
  lemma ResolveReplaced(docs: seq<Note>, requester: UserId, id: string, malformed: Failure, at: nat, n: Note)
    requires UniqueIds(docs) && Resolve(docs, requester, id, malformed) == Granted(at)
    requires n.id == docs[at].id && n.owner == docs[at].owner
    ensures Resolve(docs[at := n], requester, id, malformed) == Granted(at)
  {
    var d := docs[at := n];
    assert UniqueIds(d) by {
      forall i, j | 0 <= i < j < |d| ensures d[i].id != d[j].id {
        assert d[i].id == docs[i].id && d[j].id == docs[j].id;
      }
    }
    AuthorizeUnique(d, requester, n.id, at);
  }
}
