/**
 * The controller variant of the note handlers (backend/controllers/noteController.js), which the
 * server does not mount: page/limit listing with a total and a page count, a 400 for a malformed id,
 * tag normalisation, validation failures reported as 400, a search that also matches tags and stops at
 * 50, and statistics with a storage estimate and tag frequencies.
 */
module NoteController {
  import opened Wrappers
  import opened Sequences
  import opened Text
  import opened Json
  import opened NoteModel
  import opened Queries
  import opened Storage
  import opened Http
  import opened Requests
  import opened ObjectIds

  const DefaultPage := 1
  const DefaultPageSize := 50
  const SearchLimit := 50
  const PopularTagCount := 10
  /** The size the storage estimate charges for each tag. */
  const BytesPerTag := 50

  /** The query string of `getNotes`; `page` and `limit` as the numbers JavaScript coerces them to. */
  datatype PageQuery = PageQuery(category: Option<string>, pinned: Option<string>, search: Option<string>,
                                 page: Option<int>, limit: Option<int>)

  /** `pages` is absent where `Math.ceil(total / 0)` is not a finite number. */
  datatype Pagination = Pagination(page: int, limit: int, total: nat, pages: Option<int>)

  datatype Listing = Listing(notes: seq<Note>, pagination: Pagination)

  /** `Math.ceil(total / limit)`. */
  function PageCount(total: nat, limit: int): (p: Option<int>)
    ensures p.None? <==> limit == 0
    ensures p.Some? && limit > 0 ==> (p.value - 1) * limit < total <= p.value * limit
    ensures p.Some? && limit < 0 ==> p.value * limit <= total < (p.value - 1) * limit
  {
    if limit == 0 then None
    else if limit > 0 then
      var p := (total + limit - 1) / limit;
      assert p * limit <= total + limit - 1 < (p + 1) * limit;
      Some(p)
    else
      var q := total / -limit;
      assert q * -limit <= total < (q + 1) * -limit;
      Some(-q)
  }

  function Abs(n: int): nat {
    if n < 0 then -n else n
  }

  /** The number of matches `getNotes` skips: `(page - 1) * limit`. */
  function Skip(page: int, limit: int): int {
    (page - 1) * limit
  }

  /** `.skip(skip).limit(limit)` on the sorted matches. */
  function PageSlice(sorted: seq<Note>, skip: nat, limit: int): (r: seq<Note>)
    requires SortedDesc(sorted, ListingRank)
    ensures SortedDesc(r, ListingRank)
    ensures |r| == (if |sorted| <= skip then 0
                    else if limit == 0 || |sorted| - skip <= Abs(limit) then |sorted| - skip
                    else Abs(limit))
    ensures forall i :: 0 <= i < |r| ==> r[i] == sorted[skip + i]
  {
    var rest := Drop(sorted, skip);
    DropSorted(sorted, ListingRank, skip);
    var lim := LimitOf(limit);
    TakeSorted(rest, ListingRank, if lim.Some? then lim.value else |rest|);
    ApplyLimit(rest, lim)
  }

  /**
   * The page of `found` that `getNotes` answers with: listing order, `(page - 1) * limit` skipped, cut
   * to the limit, with the count of all of `found`. A negative skip is refused.
   */
  function Paginate(found: seq<Note>, page: int, limit: int): (r: Option<Listing>)
    ensures r.Some? <==> Skip(page, limit) >= 0
    ensures r.Some? ==>
      var skip := Skip(page, limit);
      var sorted := SortDesc(found, ListingRank);
      var notes := r.value.notes;
      && r.value.pagination == Pagination(page, limit, |found|, PageCount(|found|, limit))
      && (forall n :: n in notes ==> n in found)
      && SortedDesc(notes, ListingRank)
      && |notes| == (if |found| <= skip then 0
                     else if limit == 0 || |found| - skip <= Abs(limit) then |found| - skip
                     else Abs(limit))
      && (forall i :: 0 <= i < |notes| ==> notes[i] == sorted[skip + i])
  {
    var skip := Skip(page, limit);
    if skip < 0 then None
    else
      var sorted := SortDesc(found, ListingRank);
      var notes := PageSlice(sorted, skip, limit);
      SortDescMembers(found, ListingRank);
      assert forall n :: n in notes ==> n in found by {
        forall n | n in notes ensures n in found {
          var i :| 0 <= i < |notes| && notes[i] == n;
          assert sorted[skip + i] in sorted;
        }
      }
      Some(Listing(notes, Pagination(page, limit, |found|, PageCount(|found|, limit))))
  }

  /**
   * `getNotes`: the requester's matching notes, paginated. A negative skip or a pattern that does not
   * compile is a server error.
   */
  function GetNotes(re: RegexEngine, docs: seq<Note>, requester: UserId, q: PageQuery): (r: Response<Listing>)
    ensures var f := ListFilter(requester, q.category, q.pinned, q.search);
      var page := q.page.GetOr(DefaultPage);
      var limit := q.limit.GetOr(DefaultPageSize);
      && (r.Ok? <==> SearchCompiles(re, f) && Skip(page, limit) >= 0)
      && (!r.Ok? ==> r == Fail(ServerError))
      && (r.Ok? ==> Some(r.value) == Paginate(Find(re, f, docs), page, limit))
      && (r.Ok? ==> forall n :: n in r.value.notes ==> n in docs && n.owner == requester && Matches(re, f, n))
  {
    var f := ListFilter(requester, q.category, q.pinned, q.search);
    var page := q.page.GetOr(DefaultPage);
    var limit := q.limit.GetOr(DefaultPageSize);
    var listing := Paginate(Find(re, f, docs), page, limit);
    if !SearchCompiles(re, f) || listing.None? then Fail(ServerError)
    else Ok(listing.value)
  }

  /** A page in range holds notes, and a page past the last one is empty while `total` still counts all. */
  lemma PageWithinCount(re: RegexEngine, docs: seq<Note>, requester: UserId, q: PageQuery)
    requires GetNotes(re, docs, requester, q).Ok?
    requires q.page.GetOr(DefaultPage) >= 1 && q.limit.GetOr(DefaultPageSize) > 0
    ensures var listing := GetNotes(re, docs, requester, q).value;
      listing.notes != [] <==> q.page.GetOr(DefaultPage) <= listing.pagination.pages.value
  {
    var listing := GetNotes(re, docs, requester, q).value;
    SkipWithinPages(listing.pagination.total, q.page.GetOr(DefaultPage), q.limit.GetOr(DefaultPageSize));
  }

  /** Skipping `(page - 1) * limit` leaves matches exactly on the pages up to `ceil(total / limit)`. */
  lemma SkipWithinPages(total: nat, page: int, limit: int)
    requires page >= 1 && limit > 0
    ensures Skip(page, limit) < total <==> page <= PageCount(total, limit).value
  {
    var p := PageCount(total, limit).value;
    if page <= p {
      MultiplyMonotone(page - 1, p - 1, limit);
    } else {
      MultiplyMonotone(p, page - 1, limit);
    }
  }

  lemma MultiplyMonotone(a: int, b: int, c: nat)
    requires a <= b
    ensures a * c <= b * c
  {
  }

  /**
   * `tag && typeof tag === 'string' && tag.trim() !== ''`: the elements normalisation keeps.
   */
  predicate KeepsTag(j: Json) {
    j.JStr? && j.s != "" && Trim(j.s) != ""
  }

  /** `.map(tag => tag.trim().toLowerCase())` over the kept elements. */
  function LowerTrimmed(kept: seq<Json>): (r: seq<string>)
    requires forall i :: 0 <= i < |kept| ==> kept[i].JStr?
    ensures |r| == |kept|
    ensures forall i :: 0 <= i < |r| ==> r[i] == ToLowerAscii(Trim(kept[i].s))
  {
    seq(|kept|, i requires 0 <= i < |kept| => ToLowerAscii(Trim(kept[i].s)))
  }

  /** A normalised tag: non-empty, already trimmed and already lowercase. */
  predicate IsNormalTag(t: string) {
    t != "" && IsTrimmed(t) && ToLowerAscii(t) == t
  }

  /**
   * The tag normalisation of create and update: non-strings and blank entries are dropped, the others
   * trimmed and lowercased, in the order given.
   */
  function NormalizeTags(tags: seq<Json>): seq<string> {
    LowerTrimmed(Filter(tags, KeepsTag))
  }

  /** Every normalised tag is non-empty, trimmed and lowercase, and there are no more than given. */
  lemma NormalizedTagsAreNormal(tags: seq<Json>)
    ensures |NormalizeTags(tags)| <= |tags|
    ensures forall i :: 0 <= i < |NormalizeTags(tags)| ==> IsNormalTag(NormalizeTags(tags)[i])
  {
    var kept := Filter(tags, KeepsTag);
    forall i | 0 <= i < |kept| ensures IsNormalTag(ToLowerAscii(Trim(kept[i].s))) {
      var t := Trim(kept[i].s);
      LowerKeepsTrimmed(t);
      LowerIdempotent(t);
    }
  }

  /** One element is kept, trimmed and lowercased exactly when it is a non-blank string. */
  lemma NormalizeSingle(j: Json)
    ensures NormalizeTags([j]) == if KeepsTag(j) then [ToLowerAscii(Trim(j.s))] else []
  {
    assert [j][1..] == [];
  }

  /** Normalisation works element by element, so it keeps the order of the list. */
  lemma NormalizeAppend(a: seq<Json>, b: seq<Json>)
    ensures NormalizeTags(a + b) == NormalizeTags(a) + NormalizeTags(b)
  {
    FilterAppend(a, b, KeepsTag);
    LowerTrimmedAppend(Filter(a, KeepsTag), Filter(b, KeepsTag));
  }

  lemma LowerTrimmedAppend(x: seq<Json>, y: seq<Json>)
    requires forall i :: 0 <= i < |x| ==> x[i].JStr?
    requires forall i :: 0 <= i < |y| ==> y[i].JStr?
    ensures LowerTrimmed(x + y) == LowerTrimmed(x) + LowerTrimmed(y)
  {
    var l, r := LowerTrimmed(x), LowerTrimmed(y);
    forall i | 0 <= i < |x| + |y| ensures LowerTrimmed(x + y)[i] == (l + r)[i] {
      if i < |x| {
        assert (x + y)[i] == x[i];
      } else {
        assert (x + y)[i] == y[i - |x|];
      }
    }
  }

  /** A clean tag, a padded tag and an empty string: both tags lowercased, the padding and the empty string gone. */
  lemma NormalizeShape(w: string, pad: string, u: string)
    requires IsTrimmed(w) && w != [] && IsTrimmed(u) && u != [] && AllSpace(pad)
    ensures NormalizeTags([JStr(w), JStr(pad + u + pad), JStr("")]) == [ToLowerAscii(w), ToLowerAscii(u)]
  {
    NormalizeClean(w);
    NormalizePadded(pad, u);
    NormalizeSingle(JStr(""));
    NormalizeTriple(JStr(w), JStr(pad + u + pad), JStr(""));
  }

  /** A list of three, normalised one element at a time. */
  lemma NormalizeTriple(a: Json, b: Json, c: Json)
    ensures NormalizeTags([a, b, c]) == NormalizeTags([a]) + NormalizeTags([b]) + NormalizeTags([c])
  {
    NormalizeAppend([a], [b]);
    assert [a] + [b] == [a, b];
    NormalizeAppend([a, b], [c]);
    assert [a, b] + [c] == [a, b, c];
  }

  lemma NormalizeClean(w: string)
    requires IsTrimmed(w) && w != []
    ensures NormalizeTags([JStr(w)]) == [ToLowerAscii(w)]
  {
    TrimOfTrimmed(w);
    NormalizeSingle(JStr(w));
  }

  lemma NormalizePadded(pad: string, u: string)
    requires IsTrimmed(u) && u != [] && AllSpace(pad)
    ensures NormalizeTags([JStr(pad + u + pad)]) == [ToLowerAscii(u)]
  {
    TrimSurrounded(pad, u, pad);
    NormalizeSingle(JStr(pad + u + pad));
  }

  /** Normalising tags that are already normal changes nothing. */
  lemma NormalizeNormal(tags: seq<string>)
    requires forall i :: 0 <= i < |tags| ==> IsNormalTag(tags[i])
    ensures NormalizeTags(seq(|tags|, i requires 0 <= i < |tags| => JStr(tags[i]))) == tags
  {
    var js := seq(|tags|, i requires 0 <= i < |tags| => JStr(tags[i]));
    forall i | 0 <= i < |js| ensures KeepsTag(js[i]) {
      TrimOfTrimmed(tags[i]);
    }
    FilterAll(js, KeepsTag);
    forall i | 0 <= i < |tags| ensures ToLowerAscii(Trim(js[i].s)) == tags[i] {
      TrimOfTrimmed(tags[i]);
    }
  }

  /** The schema's trimming setter leaves normalised tags as they are. */
  lemma TrimAllNormal(tags: seq<string>)
    requires forall i :: 0 <= i < |tags| ==> IsNormalTag(tags[i])
    ensures TrimAll(tags) == tags
  {
    forall i | 0 <= i < |tags| ensures TrimAll(tags)[i] == tags[i] {
      TrimOfTrimmed(tags[i]);
    }
  }

  /** The tags of a request body after normalisation; `None` where `tags.filter` does not exist. */
  function BodyTags(tags: Option<Json>): (r: Option<seq<string>>)
    ensures tags.None? ==> r == Some([])
    ensures tags.Some? ==> (r.Some? <==> tags.value.JArr?)
    ensures tags.Some? && r.Some? ==> r.value == NormalizeTags(tags.value.items)
  {
    if tags.None? then Some([])
    else if tags.value.JArr? then Some(NormalizeTags(tags.value.items))
    else None
  }

  /**
   * `createNote` up to the save: the title guard, then the note with trimmed title and content,
   * normalised tags and lowercased category, each defaulted when absent. There is no quota check.
   */
  function ControllerCreatePlan(body: Body, owner: UserId, id: nat, now: nat): (r: CreatePlan)
    ensures CheckTitle(body.title).TitleMissing? ==> r == Reject(BadRequest(TitleRequired))
    ensures r.Build? <==>
      && CheckTitle(body.title).TitleOk?
      && BodyTags(body.tags).Some?
      && StringOr(body.content, "").Some?
      && StringOr(body.category, DefaultCategory).Some?
    ensures !r.Build? && !CheckTitle(body.title).TitleMissing? ==> r == Reject(ServerError)
    ensures r.Build? ==>
      var n := r.note;
      && n.id == id && n.owner == owner
      && n.title == Trim(CheckTitle(body.title).raw)
      && n.content == Trim(StringOr(body.content, "").value)
      && n.category == ToLowerAscii(StringOr(body.category, DefaultCategory).value)
      && n.tags == BodyTags(body.tags).value
      && !n.pinned && n.createdAt == now && n.updatedAt == now
  {
    match CheckTitle(body.title)
    case TitleMissing => Reject(BadRequest(TitleRequired))
    case TitleNotString => Reject(ServerError)
    case TitleOk(raw) =>
      var tags := BodyTags(body.tags);
      var content := StringOr(body.content, "");
      var category := StringOr(body.category, DefaultCategory);
      if tags.None? || content.None? || category.None? then Reject(ServerError)
      else
        TrimIdempotent(raw);
        AssignmentsSettle(body);
        Build(NewNote(id, owner, Trim(raw), Some(Trim(content.value)), tags.value,
                      Some(ToLowerAscii(category.value)), now))
  }

  /**
   * `createNote`. A note that fails the schema is refused with 400 and the failing paths; a valid one
   * is appended under a fresh id.
   */
  method CreateNote(store: Store, requester: UserId, body: Body) returns (resp: Response<Note>)
    requires store.Valid()
    modifies store
    ensures store.Valid()
    ensures var plan := ControllerCreatePlan(body, requester, FreshId(old(store.docs)), old(store.clock));
      && (plan.Reject? ==> resp == Fail(plan.failure) && store.docs == old(store.docs) && store.clock == old(store.clock))
      && (plan.Build? && !IsValid(plan.note) ==>
            && resp == Fail(BadRequest(ValidationFailed(ValidationErrors(plan.note))))
            && store.docs == old(store.docs) && store.clock == old(store.clock))
      && (plan.Build? && IsValid(plan.note) ==>
            && resp == Created(plan.note.(updatedAt := old(store.clock) + 1))
            && store.docs == old(store.docs) + [resp.value]
            && store.clock == old(store.clock) + 1)
  {
    var plan := ControllerCreatePlan(body, requester, FreshId(store.docs), store.clock);
    if plan.Reject? {
      return Fail(plan.failure);
    }
    assert IndexOf(store.docs, plan.note.id).None?;
    var errors, saved := store.Save(plan.note);
    if errors != [] {
      resp := Fail(BadRequest(ValidationFailed(errors)));
    } else {
      resp := Created(saved);
    }
  }

  /**
   * `updateNote` on the fetched note: the fields present are assigned (title and content trimmed, tags
   * normalised, category lowercased), the absent ones kept; `None` when an assignment throws.
   */
  function ControllerEdit(n: Note, body: Body): (r: Option<Note>)
    ensures r.Some? <==>
      && (body.title.Some? ==> body.title.value.JStr?)
      && (body.content.Some? ==> body.content.value.JStr?)
      && (body.tags.Some? ==> body.tags.value.JArr?)
      && (body.category.Some? ==> body.category.value.JStr?)
    ensures r.Some? ==>
      var e := r.value;
      && e.id == n.id && e.owner == n.owner && e.pinned == n.pinned
      && e.createdAt == n.createdAt && e.updatedAt == n.updatedAt
      && e.title == (if body.title.None? then n.title else Trim(body.title.value.s))
      && e.content == (if body.content.None? then n.content else Trim(body.content.value.s))
      && e.tags == (if body.tags.None? then n.tags else NormalizeTags(body.tags.value.items))
      && e.category == (if body.category.None? then n.category else ToLowerAscii(body.category.value.s))
  {
    if (body.title.Some? && !body.title.value.JStr?) || (body.content.Some? && !body.content.value.JStr?)
       || (body.tags.Some? && !body.tags.value.JArr?) || (body.category.Some? && !body.category.value.JStr?)
    then None
    else
      var withTitle := if body.title.None? then n else AssignTitle(n, Trim(body.title.value.s));
      var withContent := if body.content.None? then withTitle else withTitle.(content := Trim(body.content.value.s));
      var withTags := if body.tags.None? then withContent
                      else AssignTags(withContent, NormalizeTags(body.tags.value.items));
      var edited := if body.category.None? then withTags else withTags.(category := ToLowerAscii(body.category.value.s));
      AssignmentsSettle(body);
      Some(edited)
  }

  /** The schema's setters leave the handler's trimmed title and normalised tags as they are. */
  lemma AssignmentsSettle(body: Body)
    ensures body.title.Some? && body.title.value.JStr? ==> Trim(Trim(body.title.value.s)) == Trim(body.title.value.s)
    ensures body.tags.Some? && body.tags.value.JArr? ==>
      TrimAll(NormalizeTags(body.tags.value.items)) == NormalizeTags(body.tags.value.items)
  {
    if body.title.Some? && body.title.value.JStr? {
      TrimIdempotent(body.title.value.s);
    }
    if body.tags.Some? && body.tags.value.JArr? {
      NormalizedTagsAreNormal(body.tags.value.items);
      TrimAllNormal(NormalizeTags(body.tags.value.items));
    }
  }

  /** `updateNote`. A schema failure is a 400 with the failing paths and leaves the store unchanged. */
  method UpdateNote(store: Store, requester: UserId, id: string, body: Body) returns (resp: Response<Note>)
    requires store.Valid()
    modifies store
    ensures store.Valid()
    ensures var access := Resolve(old(store.docs), requester, id, BadRequest(InvalidNoteId));
      && (access.Denied? ==> resp == Fail(access.failure) && store.docs == old(store.docs) && store.clock == old(store.clock))
      && (access.Granted? ==>
        var edit := ControllerEdit(old(store.docs)[access.at], body);
        && (edit.None? ==> resp == Fail(ServerError) && store.docs == old(store.docs) && store.clock == old(store.clock))
        && (edit.Some? && !IsValid(edit.value) ==>
              && resp == Fail(BadRequest(ValidationFailed(ValidationErrors(edit.value))))
              && store.docs == old(store.docs) && store.clock == old(store.clock))
        && (edit.Some? && IsValid(edit.value) ==>
              && resp == Ok(edit.value.(updatedAt := old(store.clock) + 1))
              && store.docs == old(store.docs)[access.at := resp.value]
              && store.clock == old(store.clock) + 1))
  {
    var access := Resolve(store.docs, requester, id, BadRequest(InvalidNoteId));
    if access.Denied? {
      return Fail(access.failure);
    }
    var at := access.at;
    var edit := ControllerEdit(store.docs[at], body);
    if edit.None? {
      return Fail(ServerError);
    }
    assert Stored(store.docs[at], store.clock);
    IndexOfUnique(store.docs, edit.value.id, at);
    var errors, saved := store.Save(edit.value);
    if errors != [] {
      resp := Fail(BadRequest(ValidationFailed(errors)));
    } else {
      resp := Ok(saved);
    }
  }

  /** `togglePin`: flips `pinned` and saves, which refreshes `updatedAt`. */
  method TogglePin(store: Store, requester: UserId, id: string) returns (resp: Response<Note>)
    requires store.Valid()
    modifies store
    ensures store.Valid()
    ensures var access := Resolve(old(store.docs), requester, id, BadRequest(InvalidNoteId));
      && (access.Denied? ==> resp == Fail(access.failure) && store.docs == old(store.docs) && store.clock == old(store.clock))
      && (access.Granted? ==>
        var before := old(store.docs)[access.at];
        && resp == Ok(before.(pinned := !before.pinned, updatedAt := old(store.clock) + 1))
        && store.docs == old(store.docs)[access.at := resp.value]
        && store.clock == old(store.clock) + 1)
  {
    var access := Resolve(store.docs, requester, id, BadRequest(InvalidNoteId));
    if access.Denied? {
      return Fail(access.failure);
    }
    var at := access.at;
    var note := store.docs[at];
    assert Stored(note, store.clock);
    var toggled := note.(pinned := !note.pinned);
    assert ValidationErrors(toggled) == ValidationErrors(note);
    IndexOfUnique(store.docs, note.id, at);
    var errors, saved := store.Save(toggled);
    if errors != [] {
      resp := Fail(ServerError);
    } else {
      resp := Ok(saved);
    }
  }

  /** `deleteNote`: removes the note, after which the same id is not found. */
  method DeleteNote(store: Store, requester: UserId, id: string) returns (resp: Response<()>)
    requires store.Valid()
    modifies store
    ensures store.Valid()
    ensures var access := Resolve(old(store.docs), requester, id, BadRequest(InvalidNoteId));
      && (access.Denied? ==> resp == Fail(access.failure) && store.docs == old(store.docs))
      && (access.Granted? ==>
        && resp == Ok(())
        && store.docs == Remove(old(store.docs), old(store.docs)[access.at].id)
        && Resolve(store.docs, requester, id, BadRequest(InvalidNoteId)) == Denied(NotFound))
    ensures store.clock == old(store.clock)
  {
    var access := Resolve(store.docs, requester, id, BadRequest(InvalidNoteId));
    if access.Denied? {
      return Fail(access.failure);
    }
    var key := store.docs[access.at].id;
    RemoveGone(store.docs, key);
    store.Delete(key);
    resp := Ok(());
  }

  /** `getNote`: a malformed id is refused before the lookup. */
  function GetNote(docs: seq<Note>, requester: UserId, id: string): (r: Response<Note>)
    ensures !IsValidObjectId(id) ==> r == Fail(BadRequest(InvalidNoteId))
    ensures var access := Resolve(docs, requester, id, BadRequest(InvalidNoteId));
      && (access.Denied? ==> r == Fail(access.failure))
      && (access.Granted? ==> r == Ok(docs[access.at]))
    ensures r.Ok? ==> r.value in docs && r.value.owner == requester && ParseObjectId(id) == Some(r.value.id)
  {
    match Resolve(docs, requester, id, BadRequest(InvalidNoteId))
    case Denied(failure) => Fail(failure)
    case Granted(at) => Ok(docs[at])
  }

  /**
   * `searchNotes`: a blank query is refused; otherwise the requester's notes whose title, content or
   * some tag matches, most recently updated first, at most 50.
   */
  function SearchNotes(re: RegexEngine, docs: seq<Note>, requester: UserId, query: string): (r: Response<seq<Note>>)
    ensures r == Fail(BadRequest(QueryRequired)) <==> Trim(query) == ""
    ensures r.Ok? <==> Trim(query) != "" && re.compiles(query)
    ensures Trim(query) != "" && !re.compiles(query) ==> r == Fail(ServerError)
    ensures r.Ok? ==>
      var s := Search(query, TitleContentAndTags);
      var found := Find(re, NoteFilter(requester, None, None, Some(s)), docs);
      && (forall n :: n in r.value ==> n in docs && n.owner == requester && MatchesSearch(re, s, n))
      && SortedDesc(r.value, RecencyRank)
      && TopRanked(r.value, found, RecencyRank)
      && |r.value| == (if |found| < SearchLimit then |found| else SearchLimit)
      && multiset(r.value) <= multiset(found)
  {
    if Trim(query) == "" then Fail(BadRequest(QueryRequired))
    else if !re.compiles(query) then Fail(ServerError)
    else
      var f := NoteFilter(requester, None, None, Some(Search(query, TitleContentAndTags)));
      var found := Find(re, f, docs);
      SortedTop(found, RecencyRank, SearchLimit);
      Ok(Take(SortDesc(found, RecencyRank), SearchLimit))
  }

  /** The estimate of `getStats`: UTF-8 bytes of title and content plus 50 bytes per tag. */
  function EstimateBytes(notes: seq<Note>): nat
    decreases |notes|
  {
    if notes == [] then 0
    else
      var n := notes[|notes| - 1];
      EstimateBytes(notes[..|notes| - 1]) + Utf8Length(n.title) + Utf8Length(n.content) + BytesPerTag * |n.tags|
  }

  /** The estimate is never below the exact size while every tag takes at most 50 bytes. */
  lemma {:induction false} EstimateCoversShortTags(notes: seq<Note>)
    requires forall i, k :: 0 <= i < |notes| && 0 <= k < |notes[i].tags| ==> Utf8Length(notes[i].tags[k]) <= BytesPerTag
    ensures TotalBytes(notes) <= EstimateBytes(notes)
    decreases |notes|
  {
    if notes != [] {
      var front := notes[..|notes| - 1];
      var n := notes[|notes| - 1];
      assert forall i :: 0 <= i < |front| ==> front[i] == notes[i];
      EstimateCoversShortTags(front);
      TagBytesBound(n.tags);
    }
  }

  lemma {:induction false} TagBytesBound(tags: seq<string>)
    requires forall k :: 0 <= k < |tags| ==> Utf8Length(tags[k]) <= BytesPerTag
    ensures TagBytes(tags) <= BytesPerTag * |tags|
    decreases |tags|
  {
    if tags != [] {
      var front := tags[..|tags| - 1];
      assert forall k :: 0 <= k < |front| ==> front[k] == tags[k];
      TagBytesBound(front);
    }
  }

  /** Every tag of every note, in order (`$unwind: '$tags'`). */
  function AllTags(notes: seq<Note>): (r: seq<string>)
    ensures forall t :: t in r <==> exists i :: 0 <= i < |notes| && t in notes[i].tags
    decreases |notes|
  {
    if notes == [] then []
    else
      var front := notes[..|notes| - 1];
      var r := AllTags(front) + notes[|notes| - 1].tags;
      assert forall i :: 0 <= i < |front| ==> front[i] == notes[i];
      r
  }

  datatype TagCount = TagCount(tag: string, count: nat)

  function CountRank(c: TagCount): Rank {
    Rank(c.count, 0)
  }

  /**
   * `r` tallies the tag occurrences `all`: one entry per distinct tag, carrying its number of
   * occurrences.
   */
  ghost predicate IsTally(r: seq<TagCount>, all: seq<string>) {
    && (forall i :: 0 <= i < |r| ==> r[i].count == multiset(all)[r[i].tag] && r[i].count >= 1)
    && (forall t :: t in all <==> exists i :: 0 <= i < |r| && r[i].tag == t)
    && (forall i, j :: 0 <= i < j < |r| ==> r[i].tag != r[j].tag)
  }

  /** The `$group` stage: the tally of `all`, in order of first appearance. */
  function GroupTags(all: seq<string>): (r: seq<TagCount>)
    ensures IsTally(r, all)
    ensures |r| == |set t | t in all|
  {
    var names := Distinct(all);
    var r := seq(|names|, i requires 0 <= i < |names| => TagCount(names[i], multiset(all)[names[i]]));
    assert forall i :: 0 <= i < |r| ==> r[i].tag == names[i];
    assert forall i :: 0 <= i < |r| ==> r[i].count >= 1 by {
      forall i | 0 <= i < |r| ensures r[i].count >= 1 {
        assert names[i] in all;
      }
    }
    NoDuplicatesCardinality(names);
    assert (set t | t in all) == (set t | t in names);
    r
  }

  /** Reordering a tally keeps it a tally of the same occurrences. */
  lemma TallyPermuted(a: seq<TagCount>, b: seq<TagCount>, all: seq<string>)
    requires IsTally(a, all) && multiset(a) == multiset(b)
    ensures IsTally(b, all)
  {
    assert NoDuplicates(a) by {
      forall i, j | 0 <= i < j < |a| ensures a[i] != a[j] {
        assert a[i].tag != a[j].tag;
      }
    }
    PermutationNoDuplicates(a, b);
    forall x ensures x in a <==> x in b {
      assert x in a <==> x in multiset(a);
      assert x in b <==> x in multiset(b);
    }
    forall i | 0 <= i < |b| ensures b[i].count == multiset(all)[b[i].tag] && b[i].count >= 1 {
      assert b[i] in a;
    }
    forall t ensures t in all <==> exists i :: 0 <= i < |b| && b[i].tag == t {
      if t in all {
        var k :| 0 <= k < |a| && a[k].tag == t;
        assert a[k] in b;
      }
    }
  }

  /**
   * The tag aggregation: one entry per distinct tag with its number of occurrences across all tag
   * lists, in descending order of count.
   */
  function TagCounts(notes: seq<Note>): (r: seq<TagCount>)
    ensures IsTally(r, AllTags(notes))
    ensures forall i :: 0 <= i < |r| ==> r[i].count == multiset(AllTags(notes))[r[i].tag] && r[i].count >= 1
    ensures forall t :: t in AllTags(notes) <==> exists i :: 0 <= i < |r| && r[i].tag == t
    ensures forall i, j :: 0 <= i < j < |r| ==> r[i].tag != r[j].tag
    ensures |r| == |set t | t in AllTags(notes)|
    ensures SortedDesc(r, CountRank)
  {
    var grouped := GroupTags(AllTags(notes));
    var r := SortDesc(grouped, CountRank);
    TallyPermuted(grouped, r, AllTags(notes));
    r
  }

  /** The ten (or fewer) most frequent tags: distinct entries of the tally, each with its true count. */
  function PopularTags(notes: seq<Note>): (r: seq<TagCount>)
    ensures var n := |set t | t in AllTags(notes)|; |r| == if n < PopularTagCount then n else PopularTagCount
    ensures SortedDesc(r, CountRank)
    ensures TopRanked(r, TagCounts(notes), CountRank)
    ensures forall i :: 0 <= i < |r| ==> r[i].count == multiset(AllTags(notes))[r[i].tag] && r[i].tag in AllTags(notes)
    ensures forall i, j :: 0 <= i < j < |r| ==> r[i].tag != r[j].tag
    ensures multiset(r) <= multiset(TagCounts(notes))
  {
    var counts := TagCounts(notes);
    TakeSorted(counts, CountRank, PopularTagCount);
    TakeMultiset(counts, PopularTagCount);
    TallyPrefix(counts, AllTags(notes), PopularTagCount);
    Take(counts, PopularTagCount)
  }

  /** A prefix of a tally keeps distinct tags and their true counts. */
  lemma TallyPrefix(r: seq<TagCount>, all: seq<string>, k: nat)
    requires IsTally(r, all)
    ensures forall i :: 0 <= i < |Take(r, k)| ==> Take(r, k)[i].count == multiset(all)[Take(r, k)[i].tag] && Take(r, k)[i].tag in all
    ensures forall i, j :: 0 <= i < j < |Take(r, k)| ==> Take(r, k)[i].tag != Take(r, k)[j].tag
  {
    var t := Take(r, k);
    forall i | 0 <= i < |t| ensures t[i].count == multiset(all)[t[i].tag] && t[i].tag in all {
      assert t[i] == r[i];
    }
  }

  /** The body of `getStats`; usage in hundredths of a megabyte. */
  datatype Overview = Overview(total: nat, pinned: nat, categories: nat, tags: nat, usedHundredthsMB: nat,
                               limitMB: nat, categoriesList: seq<string>, popularTags: seq<TagCount>)

  /**
   * `getStats`: counts, distinct categories and tags of the requester's notes, the estimated storage
   * and the ten most frequent tags.
   */
  function GetStats(docs: seq<Note>, requester: UserId): (r: Overview)
    ensures var own := OwnerNotes(docs, requester);
      && r.total == |own|
      && r.pinned == |PinnedNotes(docs, requester)| && r.pinned <= r.total
      && r.categories == |r.categoriesList|
      && NoDuplicates(r.categoriesList)
      && (forall c :: c in r.categoriesList <==> exists n :: n in docs && n.owner == requester && n.category == c)
      && r.tags == |set t | t in AllTags(own)|
      && r.usedHundredthsMB == RoundedHundredths(EstimateBytes(own))
      && r.limitMB == LimitMB
      && r.popularTags == PopularTags(own)
  {
    var own := OwnerNotes(docs, requester);
    var categories := OwnerCategories(docs, requester);
    var counts := TagCounts(own);
    Overview(|own|, |PinnedNotes(docs, requester)|, |categories|, |counts|, RoundedHundredths(EstimateBytes(own)),
             LimitMB, categories, PopularTags(own))
  }
}
