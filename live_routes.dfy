/**
 * The note handlers the server mounts (backend/routes/notes.js): listing with a default limit of 8,
 * lookup, create behind a storage quota, partial update, pin toggle, delete, search in title and
 * content, and the overview statistics. A malformed id reaches `findById`, whose cast error ends in 500.
 */
module LiveRoutes {
  import opened Wrappers
  import opened Sequences
  import opened Text
  import opened Json
  import opened NoteModel
  import opened Queries
  import opened Storage
  import opened Http
  import opened Requests
  import opened ObjectIds

  const DefaultListLimit := 8

  /** The usage `calculateStorage` reports, in hundredths of a megabyte; 0 when its query throws. */
  function StorageReport(docs: seq<Note>, owner: UserId, queryFails: bool): (h: nat)
    ensures queryFails ==> h == 0
    ensures !queryFails ==>
      var bytes := TotalBytes(OwnerNotes(docs, owner));
      h * BytesPerMB <= 100 * bytes + BytesPerMB / 2 < (h + 1) * BytesPerMB
  {
    if queryFails then 0 else RoundedHundredths(TotalBytes(OwnerNotes(docs, owner)))
  }

  /** The size of every note of `owner`, counting nothing for the notes of others. */
  function OwnedBytes(docs: seq<Note>, owner: UserId): nat
    decreases |docs|
  {
    if docs == [] then 0
    else OwnedBytes(docs[..|docs| - 1], owner) + (if docs[|docs| - 1].owner == owner then NoteBytes(docs[|docs| - 1]) else 0)
  }

  /** Storage is scoped to the owner: the total over the owner's notes is the owner-only sum over the store. */
  lemma {:induction false} StorageScopedToOwner(docs: seq<Note>, owner: UserId)
    ensures TotalBytes(OwnerNotes(docs, owner)) == OwnedBytes(docs, owner)
    decreases |docs|
  {
    if docs != [] {
      var front := docs[..|docs| - 1];
      var last := docs[|docs| - 1];
      StorageScopedToOwner(front, owner);
      if last.owner == owner {
        TotalBytesAppend(OwnerNotes(front, owner), [last]);
        assert [last][..0] == [];
      } else {
        assert OwnerNotes(front, owner) + [] == OwnerNotes(front, owner);
      }
    }
  }

  /** Adding a note of another owner leaves a user's reported usage as it was. */
  lemma StorageIgnoresOthers(docs: seq<Note>, n: Note, owner: UserId, queryFails: bool)
    requires n.owner != owner
    ensures StorageReport(docs + [n], owner, queryFails) == StorageReport(docs, owner, queryFails)
  {
    assert (docs + [n])[..|docs|] == docs;
    assert OwnerNotes(docs, owner) + [] == OwnerNotes(docs, owner);
  }

  /** When the storage query fails the gate lets through every note of at most 1 GiB. */
  lemma QuotaPermissiveOnFailure(docs: seq<Note>, owner: UserId, newBytes: nat)
    ensures ExceedsQuota(StorageReport(docs, owner, true), newBytes) <==> newBytes > LimitMB * BytesPerMB
  {
  }

  /**
   * `calculateStorage(userId)`: the UTF-8 bytes of the title, the content and every tag of each of the
   * owner's notes, added up one at a time, then rounded to hundredths of a megabyte.
   */
  method CalculateStorage(store: Store, owner: UserId, queryFails: bool) returns (usedHundredths: nat)
    ensures usedHundredths == StorageReport(store.docs, owner, queryFails)
  {
    if queryFails {
      return 0;
    }
    var notes := OwnerNotes(store.docs, owner);
    var totalBytes := 0;
    var i := 0;
    while i < |notes|
      invariant 0 <= i <= |notes|
      invariant totalBytes == TotalBytes(notes[..i])
    {
      var note := notes[i];
      totalBytes := totalBytes + Utf8Length(note.title);
      totalBytes := totalBytes + Utf8Length(note.content);
      var k := 0;
      while k < |note.tags|
        invariant 0 <= k <= |note.tags|
        invariant totalBytes == TotalBytes(notes[..i]) + Utf8Length(note.title) + Utf8Length(note.content) + TagBytes(note.tags[..k])
      {
        totalBytes := totalBytes + Utf8Length(note.tags[k]);
        TagBytesStep(note.tags, k);
        k := k + 1;
      }
      assert note.tags[..|note.tags|] == note.tags;
      TotalBytesStep(notes, i);
      i := i + 1;
    }
    assert notes[..|notes|] == notes;
    usedHundredths := RoundedHundredths(totalBytes);
  }

  /** The query string of `GET /`; `limit` is the number `Number(limit)` yields, absent when not given. */
  datatype ListQuery = ListQuery(category: Option<string>, pinned: Option<string>, search: Option<string>,
                                 limit: Option<int>)

  /**
   * `GET /`: the requester's notes that pass the filters, pinned first and then the most recently
   * updated, cut to the limit (8 unless given; 0 means all).
   */
  function ListNotes(re: RegexEngine, docs: seq<Note>, requester: UserId, q: ListQuery): (r: Response<seq<Note>>)
    ensures var f := ListFilter(requester, q.category, q.pinned, q.search);
      && (r.Ok? <==> SearchCompiles(re, f))
      && (!r.Ok? ==> r == Fail(ServerError))
      && (r.Ok? ==>
        var lim := LimitOf(q.limit.GetOr(DefaultListLimit));
        && (forall n :: n in r.value ==> n in docs && n.owner == requester && Matches(re, f, n))
        && SortedDesc(r.value, ListingRank)
        && TopRanked(r.value, Find(re, f, docs), ListingRank)
        && (lim.None? ==> multiset(r.value) == multiset(Find(re, f, docs)))
        && (lim.Some? ==> |r.value| == if lim.value < |Find(re, f, docs)| then lim.value else |Find(re, f, docs)|)
        && (lim.Some? ==> multiset(r.value) <= multiset(Find(re, f, docs))))
  {
    var f := ListFilter(requester, q.category, q.pinned, q.search);
    if !SearchCompiles(re, f) then Fail(ServerError)
    else
      var found := Find(re, f, docs);
      var sorted := SortDesc(found, ListingRank);
      var lim := LimitOf(q.limit.GetOr(DefaultListLimit));
      SortedTop(found, ListingRank, if lim.Some? then lim.value else |sorted|);
      Ok(ApplyLimit(sorted, lim))
  }

  /** `GET /:id`: the note, when it exists and the requester owns it. */
  function GetNote(docs: seq<Note>, requester: UserId, id: string): (r: Response<Note>)
    ensures var access := Resolve(docs, requester, id, ServerError);
      && (access.Denied? ==> r == Fail(access.failure))
      && (access.Granted? ==> r == Ok(docs[access.at]))
    ensures r.Ok? ==> r.value in docs && r.value.owner == requester && ParseObjectId(id) == Some(r.value.id)
  {
    match Resolve(docs, requester, id, ServerError)
    case Denied(failure) => Fail(failure)
    case Granted(at) => Ok(docs[at])
  }

  /** The string `title + content` appends to the title, with `content` defaulted to `''`. */
  function ContentText(content: Option<Json>): string {
    if content.None? then "" else ToJsString(content.value)
  }

  /** `Array.isArray(tags) ? tags : []`, cast by the schema; `None` when an element fails to cast. */
  function ArrayTags(tags: Json): (r: Option<seq<string>>)
    ensures !tags.JArr? ==> r == Some([])
    ensures tags.JArr? ==> r == CastTags(tags.items)
  {
    if tags.JArr? then CastTags(tags.items) else Some([])
  }

  /**
   * `POST /` up to the save: the title guard, then the quota gate on the title and content bytes
   * against the usage `usedHundredths`, then the new note with trimmed title and content, the tags
   * when they form an array, and the lowercased category.
   */
  function LiveCreatePlan(body: Body, usedHundredths: nat, owner: UserId, id: nat, now: nat): (r: CreatePlan)
    ensures CheckTitle(body.title).TitleMissing? ==> r == Reject(BadRequest(TitleRequired))
    ensures CheckTitle(body.title).TitleNotString? ==> r == Reject(ServerError)
    ensures CheckTitle(body.title).TitleOk? ==>
      (r == Reject(QuotaExceeded(usedHundredths, LimitMB)) <==>
        ExceedsQuota(usedHundredths, Utf8Length(CheckTitle(body.title).raw) + Utf8Length(ContentText(body.content))))
    ensures r.Build? <==>
      && CheckTitle(body.title).TitleOk?
      && !ExceedsQuota(usedHundredths, Utf8Length(CheckTitle(body.title).raw) + Utf8Length(ContentText(body.content)))
      && StringOr(body.content, "").Some?
      && StringOr(body.category, DefaultCategory).Some?
      && (body.tags.Some? ==> ArrayTags(body.tags.value).Some?)
    ensures r.Build? ==>
      var n := r.note;
      && n.id == id && n.owner == owner
      && n.title == Trim(CheckTitle(body.title).raw)
      && n.content == Trim(StringOr(body.content, "").value)
      && n.category == ToLowerAscii(StringOr(body.category, DefaultCategory).value)
      && n.tags == TrimAll(if body.tags.None? then [] else ArrayTags(body.tags.value).value)
      && !n.pinned && n.createdAt == now && n.updatedAt == now
  {
    match CheckTitle(body.title)
    case TitleMissing => Reject(BadRequest(TitleRequired))
    case TitleNotString => Reject(ServerError)
    case TitleOk(raw) =>
      Utf8LengthAppend(raw, ContentText(body.content));
      if ExceedsQuota(usedHundredths, Utf8Length(raw + ContentText(body.content))) then
        Reject(QuotaExceeded(usedHundredths, LimitMB))
      else
        LiveBuild(body, raw, owner, id, now)
  }

  /** The fields of the new note once the title and the quota have passed; a non-string field is a 500. */
  function LiveBuild(body: Body, raw: string, owner: UserId, id: nat, now: nat): (r: CreatePlan)
    ensures r.Build? <==>
      && StringOr(body.content, "").Some?
      && StringOr(body.category, DefaultCategory).Some?
      && (body.tags.Some? ==> ArrayTags(body.tags.value).Some?)
    ensures !r.Build? ==> r == Reject(ServerError)
    ensures r.Build? ==>
      var n := r.note;
      && n.id == id && n.owner == owner
      && n.title == Trim(raw)
      && n.content == Trim(StringOr(body.content, "").value)
      && n.category == ToLowerAscii(StringOr(body.category, DefaultCategory).value)
      && n.tags == TrimAll(if body.tags.None? then [] else ArrayTags(body.tags.value).value)
      && !n.pinned && n.createdAt == now && n.updatedAt == now
  {
    var content := StringOr(body.content, "");
    var category := StringOr(body.category, DefaultCategory);
    var tags := if body.tags.None? then Some([]) else ArrayTags(body.tags.value);
    if content.None? || category.None? || tags.None? then Reject(ServerError)
    else
      TrimIdempotent(raw);
      Build(NewNote(id, owner, Trim(raw), Some(Trim(content.value)), tags.value,
                    Some(ToLowerAscii(category.value)), now))
  }

  /** The title guard comes before the storage lookup: a missing title is refused whatever the usage. */
  lemma TitleCheckedFirst(body: Body, used1: nat, used2: nat, owner: UserId, id: nat, now: nat)
    requires CheckTitle(body.title).TitleMissing?
    ensures LiveCreatePlan(body, used1, owner, id, now) == LiveCreatePlan(body, used2, owner, id, now)
    ensures LiveCreatePlan(body, used1, owner, id, now).Reject?
  {
  }

  /** Tags are not part of the gate: two bodies that differ only in their tags meet the same quota. */
  lemma QuotaIgnoresTags(body: Body, tags: Option<Json>, used: nat, owner: UserId, id: nat, now: nat)
    ensures LiveCreatePlan(body, used, owner, id, now) == Reject(QuotaExceeded(used, LimitMB)) <==>
            LiveCreatePlan(body.(tags := tags), used, owner, id, now) == Reject(QuotaExceeded(used, LimitMB))
  {
  }

  /**
   * `POST /`. The usage is read only after the title guard; a rejected or invalid note leaves the
   * store as it was, and a saved one is appended under a fresh id.
   */
  method CreateNote(store: Store, requester: UserId, body: Body, storageQueryFails: bool) returns (resp: Response<Note>)
    requires store.Valid()
    modifies store
    ensures store.Valid()
    ensures var plan := LiveCreatePlan(body, StorageReport(old(store.docs), requester, storageQueryFails),
                                       requester, FreshId(old(store.docs)), old(store.clock));
      && (plan.Reject? ==> resp == Fail(plan.failure) && store.docs == old(store.docs) && store.clock == old(store.clock))
      && (plan.Build? && !IsValid(plan.note) ==>
            resp == Fail(ServerError) && store.docs == old(store.docs) && store.clock == old(store.clock))
      && (plan.Build? && IsValid(plan.note) ==>
            && resp == Created(plan.note.(updatedAt := old(store.clock) + 1))
            && store.docs == old(store.docs) + [resp.value]
            && store.clock == old(store.clock) + 1)
  {
    var title := CheckTitle(body.title);
    if title.TitleMissing? {
      return Fail(BadRequest(TitleRequired));
    } else if title.TitleNotString? {
      return Fail(ServerError);
    }
    var used := CalculateStorage(store, requester, storageQueryFails);
    var plan := LiveCreatePlan(body, used, requester, FreshId(store.docs), store.clock);
    if plan.Reject? {
      return Fail(plan.failure);
    }
    assert IndexOf(store.docs, plan.note.id).None?;
    var errors, saved := store.Save(plan.note);
    if errors != [] {
      resp := Fail(ServerError);
    } else {
      resp := Created(saved);
    }
  }

  /**
   * `PUT /:id` on the fetched note: each field present in the body is assigned (title and content
   * trimmed, a non-array `tags` as `[]`, category lowercased) and the absent ones keep their values;
   * `None` when an assignment throws or a tag fails to cast.
   */
  function LiveEdit(n: Note, body: Body): (r: Option<Note>)
    ensures r.Some? <==>
      && (body.title.Some? ==> body.title.value.JStr?)
      && (body.content.Some? ==> body.content.value.JStr?)
      && (body.tags.Some? ==> ArrayTags(body.tags.value).Some?)
      && (body.category.Some? ==> body.category.value.JStr?)
    ensures r.Some? ==>
      var e := r.value;
      && e.id == n.id && e.owner == n.owner && e.pinned == n.pinned
      && e.createdAt == n.createdAt && e.updatedAt == n.updatedAt
      && e.title == (if body.title.None? then n.title else Trim(body.title.value.s))
      && e.content == (if body.content.None? then n.content else Trim(body.content.value.s))
      && e.tags == (if body.tags.None? then n.tags else TrimAll(ArrayTags(body.tags.value).value))
      && e.category == (if body.category.None? then n.category else ToLowerAscii(body.category.value.s))
  {
    if (body.title.Some? && !body.title.value.JStr?) || (body.content.Some? && !body.content.value.JStr?)
       || (body.tags.Some? && ArrayTags(body.tags.value).None?) || (body.category.Some? && !body.category.value.JStr?)
    then None
    else
      var withTitle := if body.title.None? then n else AssignTitle(n, Trim(body.title.value.s));
      var withContent := if body.content.None? then withTitle else withTitle.(content := Trim(body.content.value.s));
      var withTags := if body.tags.None? then withContent else AssignTags(withContent, ArrayTags(body.tags.value).value);
      var edited := if body.category.None? then withTags else withTags.(category := ToLowerAscii(body.category.value.s));
      if body.title.Some? then TrimIdempotent(body.title.value.s); Some(edited) else Some(edited)
  }

  /** An empty body changes nothing but the save time. */
  lemma EmptyEditKeepsNote(n: Note)
    ensures LiveEdit(n, Body(None, None, None, None)) == Some(n)
  {
  }

  /**
   * `PUT /:id`. A denied request and a failed edit or save leave the store as it was; otherwise the
   * edited note is saved in place with a new `updatedAt`.
   */
  method UpdateNote(store: Store, requester: UserId, id: string, body: Body) returns (resp: Response<Note>)
    requires store.Valid()
    modifies store
    ensures store.Valid()
    ensures var access := Resolve(old(store.docs), requester, id, ServerError);
      && (access.Denied? ==> resp == Fail(access.failure) && store.docs == old(store.docs) && store.clock == old(store.clock))
      && (access.Granted? ==>
        var edit := LiveEdit(old(store.docs)[access.at], body);
        && (edit.None? || !IsValid(edit.value) ==>
              resp == Fail(ServerError) && store.docs == old(store.docs) && store.clock == old(store.clock))
        && (edit.Some? && IsValid(edit.value) ==>
              && resp == Ok(edit.value.(updatedAt := old(store.clock) + 1))
              && store.docs == old(store.docs)[access.at := resp.value]
              && store.clock == old(store.clock) + 1))
  {
    var access := Resolve(store.docs, requester, id, ServerError);
    if access.Denied? {
      return Fail(access.failure);
    }
    var at := access.at;
    var edit := LiveEdit(store.docs[at], body);
    if edit.None? {
      return Fail(ServerError);
    }
    assert Stored(store.docs[at], store.clock);
    IndexOfUnique(store.docs, edit.value.id, at);
    var errors, saved := store.Save(edit.value);
    if errors != [] {
      resp := Fail(ServerError);
    } else {
      resp := Ok(saved);
    }
  }

  /** `PATCH /:id/pin`: flips `pinned` and saves; a stored note stays valid, so the save succeeds. */
  method TogglePin(store: Store, requester: UserId, id: string) returns (resp: Response<Note>)
    requires store.Valid()
    modifies store
    ensures store.Valid()
    ensures var access := Resolve(old(store.docs), requester, id, ServerError);
      && (access.Denied? ==> resp == Fail(access.failure) && store.docs == old(store.docs) && store.clock == old(store.clock))
      && (access.Granted? ==>
        var before := old(store.docs)[access.at];
        && resp == Ok(before.(pinned := !before.pinned, updatedAt := old(store.clock) + 1))
        && store.docs == old(store.docs)[access.at := resp.value]
        && store.clock == old(store.clock) + 1)
  {
    var access := Resolve(store.docs, requester, id, ServerError);
    if access.Denied? {
      return Fail(access.failure);
    }
    var at := access.at;
    var note := store.docs[at];
    assert Stored(note, store.clock);
    var toggled := note.(pinned := !note.pinned);
    assert ValidationErrors(toggled) == ValidationErrors(note);
    IndexOfUnique(store.docs, note.id, at);
    var errors, saved := store.Save(toggled);
    if errors != [] {
      resp := Fail(ServerError);
    } else {
      resp := Ok(saved);
    }
  }

  /** Two pin toggles in a row give the note back its `pinned` flag; only its `updatedAt` has moved on. */
  method ToggleTwice(store: Store, requester: UserId, id: string) returns (first: Response<Note>, second: Response<Note>)
    requires store.Valid()
    modifies store
    ensures store.Valid()
    ensures var access := Resolve(old(store.docs), requester, id, ServerError);
      && (access.Denied? ==> first == Fail(access.failure) && second == first && store.docs == old(store.docs))
      && (access.Granted? ==>
        && first.Ok? && first.value.pinned == !old(store.docs)[access.at].pinned
        && second == Ok(old(store.docs)[access.at].(updatedAt := old(store.clock) + 2))
        && store.docs == old(store.docs)[access.at := second.value])
  {
    ghost var before := store.docs;
    ghost var clock := store.clock;
    ghost var access := Resolve(store.docs, requester, id, ServerError);
    first := TogglePin(store, requester, id);
    ghost var middle := store.docs;
    if access.Granted? {
      ResolveReplaced(before, requester, id, ServerError, access.at, first.value);
      assert Resolve(middle, requester, id, ServerError) == access;
    } else {
      assert Resolve(middle, requester, id, ServerError) == access;
    }
    second := TogglePin(store, requester, id);
    if access.Granted? {
      ghost var at := access.at;
      FlipTwice(before[at], clock + 1, clock + 2);
      UpdateTwice(before, at, first.value, second.value);
    }
  }

  /** Flipping `pinned` twice leaves only the last stamp. */
  lemma FlipTwice(n: Note, t1: nat, t2: nat)
    ensures var m := n.(pinned := !n.pinned, updatedAt := t1);
      m.(pinned := !m.pinned, updatedAt := t2) == n.(updatedAt := t2)
  {
  }

  /** `DELETE /:id`: removes the note, after which the same id is not found. */
  method DeleteNote(store: Store, requester: UserId, id: string) returns (resp: Response<()>)
    requires store.Valid()
    modifies store
    ensures store.Valid()
    ensures var access := Resolve(old(store.docs), requester, id, ServerError);
      && (access.Denied? ==> resp == Fail(access.failure) && store.docs == old(store.docs))
      && (access.Granted? ==>
        && resp == Ok(())
        && store.docs == Remove(old(store.docs), old(store.docs)[access.at].id)
        && Resolve(store.docs, requester, id, ServerError) == Denied(NotFound))
    ensures store.clock == old(store.clock)
  {
    var access := Resolve(store.docs, requester, id, ServerError);
    if access.Denied? {
      return Fail(access.failure);
    }
    var key := store.docs[access.at].id;
    RemoveGone(store.docs, key);
    store.Delete(key);
    resp := Ok(());
  }

  /**
   * `GET /search/:query`: the requester's notes whose title or content matches the pattern (tags are
   * not searched), most recently updated first, with no limit.
   */
  function SearchNotes(re: RegexEngine, docs: seq<Note>, requester: UserId, query: string): (r: Response<seq<Note>>)
    ensures r.Ok? <==> re.compiles(query)
    ensures !r.Ok? ==> r == Fail(ServerError)
    ensures r.Ok? ==>
      && (forall n :: n in r.value <==>
            n in docs && n.owner == requester && (re.test(query, n.title) || re.test(query, n.content)))
      && SortedDesc(r.value, RecencyRank)
      && multiset(r.value) == multiset(Find(re, NoteFilter(requester, None, None, Some(Search(query, TitleAndContent))), docs))
  {
    var f := NoteFilter(requester, None, None, Some(Search(query, TitleAndContent)));
    if !re.compiles(query) then Fail(ServerError)
    else
      var found := Find(re, f, docs);
      var sorted := SortDesc(found, RecencyRank);
      SortDescMembers(found, RecencyRank);
      Ok(sorted)
  }

  /** The body of `GET /stats/overview`; usage in hundredths of a megabyte. */
  datatype Stats = Stats(total: nat, pinned: nat, usedHundredthsMB: nat, limitMB: nat, categoriesList: seq<string>)

  /**
   * `GET /stats/overview`: the owner's note count, pinned count, distinct categories and storage. The
   * second rounding of an already rounded usage changes nothing and is not repeated.
   */
  method GetStats(store: Store, requester: UserId, storageQueryFails: bool) returns (r: Stats)
    ensures r.total == |OwnerNotes(store.docs, requester)|
    ensures r.pinned == |PinnedNotes(store.docs, requester)| && r.pinned <= r.total
    ensures NoDuplicates(r.categoriesList)
    ensures forall c :: c in r.categoriesList <==> exists n :: n in store.docs && n.owner == requester && n.category == c
    ensures r.usedHundredthsMB == StorageReport(store.docs, requester, storageQueryFails)
    ensures r.limitMB == LimitMB
  {
    var own := OwnerNotes(store.docs, requester);
    var categories := OwnerCategories(store.docs, requester);
    var used := CalculateStorage(store, requester, storageQueryFails);
    r := Stats(|own|, |PinnedNotes(store.docs, requester)|, used, LimitMB, categories);
  }
}
