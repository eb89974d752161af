/**
 * The note queries both handler variants send to the collection: owner-scoped filters with an
 * optional regex search, the fixed sort orders, MongoDB's `limit`/`skip`, and lookup by id followed
 * by the ownership check.
 */
module Queries {
  import opened Wrappers
  import opened Sequences
  import opened NoteModel

  /**
   * The regular-expression engine, left abstract: whether a pattern compiles, and whether the
   * case-insensitive pattern matches somewhere in a text. The handlers pass the user's string as a
   * pattern without escaping it.
   */
  datatype RegexEngine = RegexEngine(compiles: string -> bool, test: (string, string) -> bool)

  datatype SearchScope = TitleAndContent | TitleContentAndTags

  datatype Search = Search(pattern: string, scope: SearchScope)

  /** A `Note.find` filter: the owner always, the other conditions when present. */
  datatype NoteFilter = NoteFilter(owner: UserId, category: Option<string>, pinned: Option<bool>, search: Option<Search>)

  /** The `$or` of the search: title, content, or (in the wider scope) any one tag. */
  predicate MatchesSearch(re: RegexEngine, s: Search, n: Note) {
    || re.test(s.pattern, n.title)
    || re.test(s.pattern, n.content)
    || (s.scope == TitleContentAndTags && exists i :: 0 <= i < |n.tags| && re.test(s.pattern, n.tags[i]))
  }

  predicate Matches(re: RegexEngine, f: NoteFilter, n: Note) {
    && n.owner == f.owner
    && (f.category.Some? ==> n.category == f.category.value)
    && (f.pinned.Some? ==> n.pinned == f.pinned.value)
    && (f.search.Some? ==> MatchesSearch(re, f.search.value, n))
  }

  /** The notes matching `f`, in natural order. */
  function Find(re: RegexEngine, f: NoteFilter, docs: seq<Note>): (r: seq<Note>)
    ensures forall n :: n in r <==> n in docs && Matches(re, f, n)
    ensures forall n :: multiset(r)[n] == if Matches(re, f, n) then multiset(docs)[n] else 0
  {
    FilterCounts(docs, (n: Note) => Matches(re, f, n));
    Filter(docs, (n: Note) => Matches(re, f, n))
  }

  /** `Note.find({ owner })`: the owner's notes in natural order. */
  function OwnerNotes(docs: seq<Note>, owner: UserId): (r: seq<Note>)
    ensures |r| <= |docs|
    ensures forall n :: n in r <==> n in docs && n.owner == owner
    ensures forall n :: multiset(r)[n] == if n.owner == owner then multiset(docs)[n] else 0
    decreases |docs|
  {
    if docs == [] then []
    else
      var last := docs[|docs| - 1];
      var front := docs[..|docs| - 1];
      assert docs == front + [last];
      OwnerNotes(front, owner) + (if last.owner == owner then [last] else [])
  }

  /** Every note that `Find` returns belongs to the filter's owner. */
  lemma FindWithinOwner(re: RegexEngine, f: NoteFilter, docs: seq<Note>)
    ensures forall n :: n in Find(re, f, docs) ==> n in OwnerNotes(docs, f.owner)
  {
  }

  /** The category of each note, in order. */
  function CategoriesOf(notes: seq<Note>): (r: seq<string>)
    ensures |r| == |notes|
    ensures forall i :: 0 <= i < |r| ==> r[i] == notes[i].category
  {
    seq(|notes|, i requires 0 <= i < |notes| => notes[i].category)
  }

  /** `distinct('category', { owner })`: each category of the owner's notes once, and no other. */
  function OwnerCategories(docs: seq<Note>, owner: UserId): (r: seq<string>)
    ensures NoDuplicates(r)
    ensures forall c :: c in r <==> exists n :: n in docs && n.owner == owner && n.category == c
  {
    var own := OwnerNotes(docs, owner);
    var r := Distinct(CategoriesOf(own));
    forall c ensures c in r <==> exists n :: n in docs && n.owner == owner && n.category == c {
      if c in r {
        var i :| 0 <= i < |own| && CategoriesOf(own)[i] == c;
        assert own[i] in own;
      }
      if exists n :: n in docs && n.owner == owner && n.category == c {
        var n :| n in docs && n.owner == owner && n.category == c;
        assert n in own;
        var i :| 0 <= i < |own| && own[i] == n;
        assert CategoriesOf(own)[i] == c;
      }
    }
    r
  }

  /** The owner's pinned notes (`countDocuments({ owner, pinned: true })` counts them). */
  function PinnedNotes(docs: seq<Note>, owner: UserId): (r: seq<Note>)
    ensures |r| <= |OwnerNotes(docs, owner)|
    ensures forall n :: n in r <==> n in docs && n.owner == owner && n.pinned
    ensures forall n :: multiset(r)[n] == if n.owner == owner && n.pinned then multiset(docs)[n] else 0
  {
    FilterCounts(OwnerNotes(docs, owner), (n: Note) => n.pinned);
    Filter(OwnerNotes(docs, owner), (n: Note) => n.pinned)
  }

  /** A search pattern that fails to compile makes the query throw. */
  predicate SearchCompiles(re: RegexEngine, f: NoteFilter) {
    f.search.Some? ==> re.compiles(f.search.value.pattern)
  }

  /**
   * The filter the listing handlers build from the query string: a category other than empty or
   * `all` is matched exactly, `pinned` is present exactly when given and is true only for `true`, and
   * a non-empty search looks in title, content and tags.
   */
  function ListFilter(owner: UserId, category: Option<string>, pinned: Option<string>,
                      search: Option<string>): (f: NoteFilter)
    ensures f.owner == owner
    ensures f.category.Some? <==> category.Some? && category.value != "" && category.value != "all"
    ensures f.category.Some? ==> f.category == category
    ensures f.pinned.Some? <==> pinned.Some?
    ensures f.pinned.Some? ==> (f.pinned.value <==> pinned.value == "true")
    ensures f.search.Some? <==> search.Some? && search.value != ""
    ensures f.search.Some? ==> f.search.value == Search(search.value, TitleContentAndTags)
  {
    NoteFilter(
      owner,
      if category.Some? && category.value != "" && category.value != "all" then category else None,
      if pinned.Some? then Some(pinned.value == "true") else None,
      if search.Some? && search.value != "" then Some(Search(search.value, TitleContentAndTags)) else None)
  }

  /**
   * What the listing filter selects: the requester's notes, in the given category unless it is
   * empty or `all`, pinned or not as `pinned` says (anything but `true` selects the unpinned ones),
   * and matching the search when it is not empty.
   */
  lemma ListFilterMatches(re: RegexEngine, owner: UserId, category: Option<string>, pinned: Option<string>,
                          search: Option<string>, n: Note)
    ensures Matches(re, ListFilter(owner, category, pinned, search), n) <==>
      && n.owner == owner
      && (category.None? || category.value == "" || category.value == "all" || n.category == category.value)
      && (pinned.None? || n.pinned == (pinned.value == "true"))
      && (search.None? || search.value == "" || MatchesSearch(re, Search(search.value, TitleContentAndTags), n))
  {
  }

  /** The listing order: pinned notes first, then the most recently updated. */
  function ListingRank(n: Note): Rank {
    Rank(if n.pinned then 1 else 0, n.updatedAt)
  }

  /** Most recently updated first. */
  function RecencyRank(n: Note): Rank {
    Rank(0, n.updatedAt)
  }

  /** What the listing order means: no unpinned note before a pinned one, newer first within a group. */
  lemma ListingOrder(s: seq<Note>, i: nat, j: nat)
    requires SortedDesc(s, ListingRank) && i < j < |s|
    ensures s[j].pinned ==> s[i].pinned
    ensures s[i].pinned == s[j].pinned ==> s[i].updatedAt >= s[j].updatedAt
  {
    assert AtLeast(ListingRank(s[i]), ListingRank(s[j]));
  }

  /** MongoDB's `limit(n)`: zero means no limit and a negative limit counts like its absolute value. */
  function LimitOf(n: int): (r: Option<nat>)
    ensures r.None? <==> n == 0
    ensures r.Some? ==> r.value == (if n < 0 then -n else n)
  {
    if n == 0 then None else if n < 0 then Some(-n) else Some(n)
  }

  function ApplyLimit(s: seq<Note>, limit: Option<nat>): (r: seq<Note>)
    ensures limit.None? ==> r == s
    ensures limit.Some? ==> r == Take(s, limit.value)
  {
    if limit.None? then s else Take(s, limit.value)
  }

  /**
   * `limit(k)` keeps a prefix: all of `s` when `k` is zero or its absolute value reaches the length,
   * otherwise the first |k| elements.
   */
  lemma LimitedPrefix(s: seq<Note>, k: int)
    ensures var r := ApplyLimit(s, LimitOf(k));
      && |r| == (if k == 0 || (if k < 0 then -k else k) >= |s| then |s| else if k < 0 then -k else k)
      && r == s[..|r|]
  {
    var r := ApplyLimit(s, LimitOf(k));
    assert r == s[..|r|];
  }

  /** The result of looking a note up by id and comparing its owner with the requester. */
  datatype Lookup = Missing | NotOwner | Owned(at: nat)

  /**
   * `findById`, then the owner check: absent ids are reported before ownership is examined.
   */
  function Authorize(docs: seq<Note>, requester: UserId, key: nat): (r: Lookup)
    ensures r.Missing? <==> forall j :: 0 <= j < |docs| ==> docs[j].id != key
    ensures r.NotOwner? <==> IndexOf(docs, key).Some? && docs[IndexOf(docs, key).value].owner != requester
    ensures r.Owned? ==> r.at < |docs| && docs[r.at].id == key && docs[r.at].owner == requester
    ensures r.Owned? ==> IndexOf(docs, key) == Some(r.at)
  {
    match IndexOf(docs, key)
    case None => Missing
    case Some(i) => if docs[i].owner != requester then NotOwner else Owned(i)
  }

  /** With unique ids: Forbidden exactly when the note exists and belongs to someone else. */
  lemma AuthorizeUnique(docs: seq<Note>, requester: UserId, key: nat, j: nat)
    requires UniqueIds(docs) && j < |docs| && docs[j].id == key
    ensures Authorize(docs, requester, key) == if docs[j].owner == requester then Owned(j) else NotOwner
  {
    IndexOfUnique(docs, key, j);
  }
}
