/**
 * The `Note` model: the schema's fields, defaults, setters and validators, and the collection of
 * stored notes with the pre-save hook that stamps `updatedAt`.
 */
module NoteModel {
  import opened Wrappers
  import opened Text
  import opened Json

  /** A user's id; the handlers only compare it with a note's owner. */
  type UserId = nat

  const MaxTitleLength := 200
  const MaxContentLength := 10000
  const MaxTagLength := 50
  const MaxCategoryLength := 50
  const DefaultCategory := "general"

  /** The `enum` of the `category` field. */
  const Categories: seq<string> := ["general", "work", "personal", "ideas", "important", "study",
                                    "projects", "travel", "finance", "health", "shopping", "others"]

  /** A note document. Times are readings of the logical clock of the collection. */
  datatype Note = Note(
    id: nat,
    owner: UserId,
    title: string,
    content: string,
    tags: seq<string>,
    category: string,
    pinned: bool,
    createdAt: nat,
    updatedAt: nat)

  /** The path a validation error is reported under. */
  datatype Path = TitlePath | ContentPath | TagPath(index: nat) | CategoryPath

  /** The positions of the tags longer than the tag limit. */
  function TagErrors(tags: seq<string>): (errs: seq<Path>)
    ensures errs == [] <==> forall i :: 0 <= i < |tags| ==> Utf16Length(tags[i]) <= MaxTagLength
    ensures forall i :: 0 <= i < |errs| ==> errs[i].TagPath? && errs[i].index < |tags|
    decreases |tags|
  {
    if tags == [] then []
    else
      var errs := TagErrors(tags[..|tags| - 1]);
      assert forall i :: 0 <= i < |tags| - 1 ==> tags[..|tags| - 1][i] == tags[i];
      errs + (if Utf16Length(tags[|tags| - 1]) > MaxTagLength then [TagPath(|tags| - 1)] else [])
  }

  /** Tag `i` is reported exactly when it is longer than the limit. */
  lemma {:induction false} TagErrorPositions(tags: seq<string>)
    ensures forall i :: 0 <= i < |tags| ==> (TagPath(i) in TagErrors(tags) <==> Utf16Length(tags[i]) > MaxTagLength)
    decreases |tags|
  {
    if tags != [] {
      var n := |tags| - 1;
      var front := tags[..n];
      var errs := TagErrors(front);
      var last := if Utf16Length(tags[n]) > MaxTagLength then [TagPath(n)] else [];
      assert TagErrors(tags) == errs + last;
      TagErrorPositions(front);
      forall i | 0 <= i < |tags| ensures TagPath(i) in errs + last <==> Utf16Length(tags[i]) > MaxTagLength {
        if i < n {
          assert front[i] == tags[i];
          assert TagPath(i) !in last;
        } else {
          assert TagPath(n) !in errs;
        }
      }
    }
  }

  /**
   * What `validate` reports before a save: the title is required (the empty string fails `required`)
   * and at most 200 code units, the content at most 10000, each tag at most 50, and the category one of
   * the listed values.
   */
  function ValidationErrors(n: Note): (errs: seq<Path>)
    ensures TitlePath in errs <==> n.title == "" || Utf16Length(n.title) > MaxTitleLength
    ensures ContentPath in errs <==> Utf16Length(n.content) > MaxContentLength
    ensures CategoryPath in errs <==> n.category !in Categories
    ensures errs == [] <==>
      && n.title != "" && Utf16Length(n.title) <= MaxTitleLength
      && Utf16Length(n.content) <= MaxContentLength
      && (forall i :: 0 <= i < |n.tags| ==> Utf16Length(n.tags[i]) <= MaxTagLength)
      && n.category in Categories
  {
    (if n.title == "" || Utf16Length(n.title) > MaxTitleLength then [TitlePath] else [])
    + (if Utf16Length(n.content) > MaxContentLength then [ContentPath] else [])
    + TagErrors(n.tags)
    + (if n.category !in Categories || Utf16Length(n.category) > MaxCategoryLength then [CategoryPath] else [])
  }

  predicate IsValid(n: Note) {
    ValidationErrors(n) == []
  }

  /**
   * The cast of one element of a tag array to a string: strings are kept, numbers and booleans are
   * printed, a `null` element is taken as the empty string, arrays and objects fail to cast.
   */
  function CastTag(j: Json): Option<string> {
    match j
    case JStr(s) => Some(s)
    case JNum(n) => Some(IntToDecimal(n))
    case JBool(b) => Some(if b then "true" else "false")
    case JNull => Some("")
    case JArr(_) => None
    case JObj => None
  }

  /** The cast of a whole tag array; `None` when some element fails to cast. */
  function CastTags(items: seq<Json>): (r: Option<seq<string>>)
    ensures r.Some? <==> forall i :: 0 <= i < |items| ==> CastTag(items[i]).Some?
    ensures r.Some? ==> |r.value| == |items| && forall i :: 0 <= i < |items| ==> r.value[i] == CastTag(items[i]).value
    decreases |items|
  {
    if items == [] then Some([])
    else
      var front := CastTags(items[..|items| - 1]);
      var last := CastTag(items[|items| - 1]);
      assert forall i :: 0 <= i < |items| - 1 ==> items[..|items| - 1][i] == items[i];
      if front.Some? && last.Some? then Some(front.value + [last.value]) else None
  }

  /**
   * `new Note({...})`: the trimming setters of `title` and the tags run, an absent content or category
   * takes its default, `pinned` starts false and both times are the clock's reading `now`.
   */
  function NewNote(id: nat, owner: UserId, title: string, content: Option<string>, tags: seq<string>,
                   category: Option<string>, now: nat): (n: Note)
    ensures n.id == id && n.owner == owner && n.title == Trim(title) && n.tags == TrimAll(tags)
    ensures IsTrimmed(n.title) && forall i :: 0 <= i < |n.tags| ==> IsTrimmed(n.tags[i])
    ensures n.content == (if content.Some? then content.value else "")
    ensures n.category == (if category.Some? then category.value else DefaultCategory)
    ensures !n.pinned && n.createdAt == now && n.updatedAt == now
  {
    Note(id, owner, Trim(title), content.GetOr(""), TrimAll(tags), category.GetOr(DefaultCategory),
         false, now, now)
  }

  /** Assigning `note.title`, through its trimming setter: no other field changes. */
  function AssignTitle(n: Note, title: string): (r: Note)
    ensures r.title == Trim(title) && IsTrimmed(r.title)
    ensures r.(title := n.title) == n
  {
    n.(title := Trim(title))
  }

  /** Assigning `note.tags`, through the elements' trimming setter: no other field changes. */
  function AssignTags(n: Note, tags: seq<string>): (r: Note)
    ensures |r.tags| == |tags| && forall i :: 0 <= i < |tags| ==> r.tags[i] == Trim(tags[i]) && IsTrimmed(r.tags[i])
    ensures r.(tags := n.tags) == n
  {
    n.(tags := TrimAll(tags))
  }

  /** Assigning a note its own stored title again changes nothing: the setter has already trimmed it. */
  lemma AssignTitleSettles(n: Note, title: string)
    ensures var r := AssignTitle(n, title); AssignTitle(r, r.title) == r
  {
    TrimIdempotent(title);
  }

  /** The same for the tags. */
  lemma AssignTagsSettles(n: Note, tags: seq<string>)
    ensures var r := AssignTags(n, tags); AssignTags(r, r.tags) == r
  {
    var r := AssignTags(n, tags);
    forall i | 0 <= i < |tags| ensures Trim(r.tags[i]) == r.tags[i] {
      TrimIdempotent(tags[i]);
    }
    assert TrimAll(r.tags) == r.tags;
  }

  /**
   * The `required` check on a new note fails exactly when the given title is empty or all white
   * space: the setter's trim leaves nothing.
   */
  lemma NewNoteTitleRequired(id: nat, owner: UserId, title: string, content: Option<string>, tags: seq<string>,
                             category: Option<string>, now: nat)
    ensures var n := NewNote(id, owner, title, content, tags, category, now);
      TitlePath in ValidationErrors(n) <==> AllSpace(title) || Utf16Length(Trim(title)) > MaxTitleLength
  {
    TrimEmpty(title);
  }

  /** No two stored notes share an id. */
  predicate UniqueIds(docs: seq<Note>) {
    forall i, j :: 0 <= i < j < |docs| ==> docs[i].id != docs[j].id
  }

  /** The position of the note with id `key` (`findById`). */
  function IndexOf(docs: seq<Note>, key: nat): (r: Option<nat>)
    ensures r.Some? ==> r.value < |docs| && docs[r.value].id == key
    ensures r.None? <==> forall j :: 0 <= j < |docs| ==> docs[j].id != key
    decreases |docs|
  {
    if docs == [] then None
    else if docs[0].id == key then Some(0)
    else
      var rest := IndexOf(docs[1..], key);
      if rest.Some? then Some(rest.value + 1) else None
  }

  /** With unique ids, the note found is the only one with that id. */
  lemma IndexOfUnique(docs: seq<Note>, key: nat, j: nat)
    requires UniqueIds(docs) && j < |docs| && docs[j].id == key
    ensures IndexOf(docs, key) == Some(j)
  {
  }

  /** A save: an already stored note is replaced where it is, a new one is appended. */
  function Upsert(docs: seq<Note>, doc: Note): (r: seq<Note>)
    ensures IndexOf(docs, doc.id).Some? ==> r == docs[IndexOf(docs, doc.id).value := doc]
    ensures IndexOf(docs, doc.id).None? ==> r == docs + [doc]
  {
    match IndexOf(docs, doc.id)
    case Some(i) => docs[i := doc]
    case None => docs + [doc]
  }

  lemma UpsertUnique(docs: seq<Note>, doc: Note)
    requires UniqueIds(docs)
    ensures UniqueIds(Upsert(docs, doc))
  {
  }

  /** A save of a note that passed validation keeps every stored note stored, at any later clock. */
  lemma UpsertStored(docs: seq<Note>, doc: Note, before: nat, now: nat)
    requires before <= now
    requires forall i :: 0 <= i < |docs| ==> Stored(docs[i], before)
    requires Stored(doc, now)
    ensures forall i :: 0 <= i < |Upsert(docs, doc)| ==> Stored(Upsert(docs, doc)[i], now)
  {
    UpsertElements(docs, doc);
  }

  /** Each note after a save is the saved one or the note that was at its place. */
  lemma UpsertElements(docs: seq<Note>, doc: Note)
    ensures forall i :: 0 <= i < |Upsert(docs, doc)| ==>
      Upsert(docs, doc)[i] == doc || (i < |docs| && Upsert(docs, doc)[i] == docs[i])
  {
  }

  /** `findByIdAndDelete`: the note with id `key` is removed and the others keep their order. */
  function Remove(docs: seq<Note>, key: nat): (r: seq<Note>)
    ensures IndexOf(docs, key).None? ==> r == docs
    ensures IndexOf(docs, key).Some? ==>
      var i := IndexOf(docs, key).value; r == docs[..i] + docs[i + 1..]
  {
    match IndexOf(docs, key)
    case Some(i) => docs[..i] + docs[i + 1..]
    case None => docs
  }

  /** After a delete the id is gone and every other note is still there. */
  lemma RemoveGone(docs: seq<Note>, key: nat)
    requires UniqueIds(docs)
    ensures UniqueIds(Remove(docs, key))
    ensures IndexOf(Remove(docs, key), key).None?
    ensures forall n :: n in Remove(docs, key) <==> n in docs && n.id != key
  {
    var r := Remove(docs, key);
    match IndexOf(docs, key)
    case None =>
    case Some(i) =>
      forall j, k | 0 <= j < k < |r| ensures r[j].id != r[k].id {
        RemovedAt(docs, i, j);
        RemovedAt(docs, i, k);
      }
      forall j | 0 <= j < |r| ensures r[j].id != key {
        RemovedAt(docs, i, j);
      }
      forall n ensures n in r <==> n in docs && n.id != key {
        if n in docs && n.id != key {
          var k :| 0 <= k < |docs| && docs[k] == n;
          RemovedAt(docs, i, if k < i then k else k - 1);
        }
      }
  }

  lemma RemovedAt(docs: seq<Note>, i: nat, j: nat)
    requires i < |docs| && j < |docs| - 1
    ensures (docs[..i] + docs[i + 1..])[j] == docs[if j < i then j else j + 1]
  {
  }

  /** An id that no stored note has: the model's stand-in for the ObjectId MongoDB generates on insert. */
  function FreshId(docs: seq<Note>): (r: nat)
    ensures forall j :: 0 <= j < |docs| ==> docs[j].id < r
    decreases |docs|
  {
    if docs == [] then 0
    else
      var front := FreshId(docs[..|docs| - 1]);
      var next := docs[|docs| - 1].id + 1;
      assert forall j :: 0 <= j < |docs| - 1 ==> docs[..|docs| - 1][j] == docs[j];
      if front < next then next else front
  }

  /** What every stored note satisfies: it passed validation and its times are in order. */
  predicate Stored(n: Note, clock: nat) {
    IsValid(n) && n.createdAt <= n.updatedAt <= clock
  }

  /** The notes collection, in natural (insertion) order, with the clock that `Date.now` reads. */
  class Store {
    var docs: seq<Note>
    var clock: nat

    ghost predicate Valid()
      reads this
    {
      UniqueIds(docs) && forall i :: 0 <= i < |docs| ==> Stored(docs[i], clock)
    }

    constructor ()
      ensures Valid() && docs == [] && clock == 0
    {
      docs := [];
      clock := 0;
    }

    /**
     * `note.save()`: validation first; on success the pre-save hook sets `updatedAt` to the clock,
     * which every save advances, and the note is written.
     */
    method Save(doc: Note) returns (errors: seq<Path>, saved: Note)
      requires Valid()
      requires doc.createdAt <= clock
      modifies this
      ensures Valid()
      ensures errors == ValidationErrors(doc)
      ensures errors != [] ==> docs == old(docs) && clock == old(clock)
      ensures errors == [] ==>
        && clock == old(clock) + 1
        && saved == doc.(updatedAt := clock)
        && docs == Upsert(old(docs), saved)
    {
      errors := ValidationErrors(doc);
      saved := doc;
      if errors == [] {
        clock := clock + 1;
        saved := doc.(updatedAt := clock);
        assert ValidationErrors(saved) == errors;
        UpsertUnique(docs, saved);
        UpsertStored(docs, saved, clock - 1, clock);
        docs := Upsert(docs, saved);
      }
    }

    /** `findByIdAndDelete`. */
    method Delete(key: nat)
      requires Valid()
      modifies this
      ensures Valid()
      ensures docs == Remove(old(docs), key) && clock == old(clock)
    {
      RemoveGone(docs, key);
      var r := Remove(docs, key);
      forall i | 0 <= i < |r| ensures Stored(r[i], clock) {
        assert r[i] in docs;
      }
      docs := r;
    }
  }
}
