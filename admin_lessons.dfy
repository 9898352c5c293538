/** The admin lesson list (admin-lessons.js): every stored lesson, drafts included, with a
    content preview per card, the search and select filters, and the button that creates
    a new draft under the next sequential id. */
module AdminLessons {
  import opened Wrappers
  import opened JsStrings
  import opened JsArrays
  import opened Blocks
  import opened Html
  import opened FormFields
  import opened Listing
  import opened LessonEditor

  /** A stored lesson as the list reads it: the `draft` flag and `author`, and the fields
      the lesson editor reads (id, title, category, tags, cover, blocks, problems). */
  datatype LessonEntry = LessonEntry(draft: bool, author: string, doc: LessonDoc)

  // ---------------------------------------------------------------- content preview

  const NoContent: string := "<em>No content available</em>"
  const ViewForDetails: string := "<em>View lesson for details</em>"
  const PreviewLimit: nat := 120

  /** `getContentPreview(blocks)`: a placeholder for missing or empty blocks, the first
      text block shortened to 120 characters and escaped, or a second placeholder when no
      block is text. */
  function ContentPreview(blocks: Option<seq<Block>>): (r: string)
    ensures blocks.None? || blocks.value == [] ==> r == NoContent
    ensures blocks.Some? && blocks.value != [] && FirstText(blocks.value).None? ==> r == ViewForDetails
    ensures blocks.Some? && FirstText(blocks.value).Some? ==>
      r == EscapeText(Shorten(FirstText(blocks.value).value, PreviewLimit))
  {
    if blocks.None? || blocks.value == [] then NoContent
    else match FirstText(blocks.value)
      case Some(c) => EscapeText(Shorten(c, PreviewLimit))
      case None => ViewForDetails
  }

  /** A text preview holds no markup, decodes to the shortened text, and so can never be
      mistaken for either placeholder. */
  lemma ContentPreviewShowsText(bs: seq<Block>, c: string)
    requires FirstText(bs) == Some(c)
    ensures '<' !in ContentPreview(Some(bs))
    ensures Unescape(ContentPreview(Some(bs))) == Shorten(c, PreviewLimit)
    ensures ContentPreview(Some(bs)) != NoContent && ContentPreview(Some(bs)) != ViewForDetails
  {
    EscapedHasNoMarkup(Shorten(c, PreviewLimit), true, false);
    UnescapeEscape(Shorten(c, PreviewLimit), true, false);
    assert NoContent[0] == '<' && ViewForDetails[0] == '<';
  }

  // ---------------------------------------------------------------- filters

  /** The three filter controls. */
  datatype LessonFilters = LessonFilters(search: string, category: string, draft: string)

  /** A lesson matches a search term when its lowercased title, its id written out, one of
      its lowercased tags or its lowercased category contains it. */
  function SearchMatches(l: LessonEntry, term: string): (b: bool)
    ensures term == "" ==> b
    ensures l.doc.id.Num? && term == IntToString(l.doc.id.n) ==> b
    ensures Contains(ToLower(l.doc.category), term) ==> b
  {
    ContainsEmpty(ToLower(l.doc.title));
    assert IdText(l.doc.id) <= IdText(l.doc.id);
    Contains(ToLower(l.doc.title), term) || Contains(IdText(l.doc.id), term)
    || SomeContains(l.doc.tags, term) || Contains(ToLower(l.doc.category), term)
  }

  /** The `applyFilters` predicate. */
  function Keeps(f: LessonFilters, l: LessonEntry): (b: bool)
    ensures b ==> SelectionMatches(f.category, l.doc.category) && DraftVisible(f.draft, l.draft)
    ensures f == LessonFilters("", "", "") ==> b
  {
    assert SearchTerm("") == "";
    var term := SearchTerm(f.search);
    (term == "" || SearchMatches(l, term))
    && SelectionMatches(f.category, l.doc.category)
    && DraftVisible(f.draft, l.draft)
  }

  /** The lessons `applyFilters` shows: those that pass, in load order. */
  function Filtered(all: seq<LessonEntry>, f: LessonFilters): (r: seq<LessonEntry>)
    ensures IsSubsequence(r, all)
    ensures forall l :: l in r <==> l in all && Keeps(f, l)
  {
    FilterIsSubsequence(all, (l: LessonEntry) => Keeps(f, l));
    Filter(all, (l: LessonEntry) => Keeps(f, l))
  }

  /** `applyFilters()` on the page's lists. */
  method ApplyFilters(page: ListView<LessonEntry>, f: LessonFilters)
    modifies page
    ensures page.all == old(page.all)
    ensures page.shown == Filtered(page.all, f)
  {
    page.Refine((l: LessonEntry) => Keeps(f, l));
  }

  /** Searching for a lesson's category, with no other filter set, finds it: whatever its
      case and surrounding white space, the trimmed lowercase term lies inside the lowercased
      category. */
  lemma SearchFindsCategory(all: seq<LessonEntry>, l: LessonEntry)
    requires l in all
    ensures l in Filtered(all, LessonFilters(l.doc.category, "", ""))
  {
    var f := LessonFilters(l.doc.category, "", "");
    TrimIsInside(ToLower(l.doc.category));
    assert Contains(ToLower(l.doc.category), SearchTerm(l.doc.category));
    assert SearchMatches(l, SearchTerm(f.search));
    assert Keeps(f, l);
  }

  // ---------------------------------------------------------------- new drafts

  /** The draft document `createNewLesson` writes under id `id`. */
  function NewLesson(id: int): LessonEntry {
    LessonEntry(true, "admin", LessonDoc(Num(id), "", "", [], "", Some([]), []))
  }

  /** `createNewLesson()`: writes `NewLesson(nextId)` and moves the counter to it. Only this
      button creates lesson documents (the editor's save is `SaveLessonTo`, which never
      does), so the store stays `Valid` and the new id is free. */
  method CreateNewLesson(store: Collection<LessonEntry>) returns (id: int)
    requires store.Valid()
    modifies store
    ensures id == NextId(old(store.latestId)) && id !in old(store.docs)
    ensures store.docs == old(store.docs)[id := NewLesson(id)]
    ensures store.latestId == Some(id) && store.Valid()
  {
    id := store.Create(NewLesson);
  }

  /** The stored lesson after the editor's payload is merged into it: every field the pages
      read is one the payload sets, and the id is what `parseInt` gave, NaN included. */
  function SavedEntry(p: LessonPayload): (e: LessonEntry)
    ensures e.doc.id.Num? <==> p.id.Some?
    ensures e.doc.blocks == Some(p.blocks) && e.draft == p.draft && e.author == p.author
    ensures e.doc.title == p.title && e.doc.tags == p.tags && e.doc.problems == p.problems
  {
    LessonEntry(p.draft, p.author,
      LessonDoc(OfParsed(p.id), p.title, p.category, p.tags, p.cover, Some(p.blocks), p.problems))
  }

  /** `saveLesson`'s `updateDoc` on the lesson named in the URL: refused when that document
      does not exist, so it never adds an id and the store stays `Valid`. */
  method SaveLessonTo(store: Collection<LessonEntry>, key: int, p: LessonPayload) returns (ok: bool)
    modifies store
    ensures ok <==> key in old(store.docs)
    ensures store.docs == if ok then old(store.docs)[key := SavedEntry(p)] else old(store.docs)
    ensures store.latestId == old(store.latestId)
    ensures old(store.Valid()) ==> store.Valid()
  {
    ok := store.Update(key, SavedEntry(p));
  }

  /** Opening a well-formed lesson and saving it with its own draft flag and author stores
      back the very entry that was opened. */
  lemma StoreAfterLoad(e: LessonEntry, urlId: string, now: int)
    requires e.doc.id.Num? && e.doc.id.n != 0 && e.doc.blocks.Some?
    requires e.doc.title != [] && IsTrimmed(e.doc.title) && IsTrimmed(e.doc.cover)
    requires forall i :: 0 <= i < |e.doc.tags| ==> IsToken(e.doc.tags[i], ',')
    ensures var r := AssembleLesson(FormOf(e.doc, urlId), e.draft, e.author, now, e.doc.blocks.value);
      r.Ok? && SavedEntry(r.value) == e
  {
    var d := e.doc;
    var p := LessonPayload(Some(d.id.n), d.title, d.category, d.tags, d.cover, e.draft, e.author, now,
                           d.blocks.value, d.problems);
    assert AssembleLesson(FormOf(d, urlId), e.draft, e.author, now, d.blocks.value) == Ok(p) by {
      SaveAfterLoad(d, urlId, e.draft, e.author, now, d.blocks.value);
    }
    assert OfParsed(p.id) == d.id;
    assert SavedEntry(p).doc == d;
  }

  /** A new draft is listed under "draft" and hidden under "published", and previews the
      missing content. */
  lemma NewLessonListed(id: int)
    ensures Keeps(LessonFilters("", "", "draft"), NewLesson(id))
    ensures !Keeps(LessonFilters("", "", "published"), NewLesson(id))
    ensures ContentPreview(NewLesson(id).doc.blocks) == NoContent
  {
    assert SearchTerm("") == "";
  }

  /** A new draft opens in the lesson editor under its own id and with no blocks at all:
      its stored empty list is kept, not replaced by an empty text block. */
  lemma NewLessonOpensEmpty(id: int, urlId: string)
    requires id != 0
    ensures FormOf(NewLesson(id).doc, urlId).id == IntToString(id)
    ensures FormOf(NewLesson(id).doc, urlId).title == "" && FormOf(NewLesson(id).doc, urlId).tags == ""
    ensures LoadedBlocks(NewLesson(id).doc.blocks) == []
  {
  }
}
