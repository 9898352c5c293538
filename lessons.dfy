/** The public lesson list (lessons.js): published lessons with a content preview per card,
    a search box and a category filter. */
module LessonsPage {
  import opened Wrappers
  import opened JsStrings
  import opened JsArrays
  import opened Blocks
  import opened Html
  import opened FormFields
  import opened Listing
  import opened LessonEditor
  import AdminLessons

  const NoContent: string := "<em>No content available</em>"
  const ViewForDetails: string := "<em>View lesson for details</em>"
  const PreviewLimit: nat := 150

  /** `getContentPreview(blocks)` of the public list: like the admin list's, but shortened to
      150 characters and inserted into the card without escaping. */
  function ContentPreview(blocks: Option<seq<Block>>): (r: string)
    ensures blocks.None? || blocks.value == [] ==> r == NoContent
    ensures blocks.Some? && blocks.value != [] && FirstText(blocks.value).None? ==> r == ViewForDetails
    ensures blocks.Some? && FirstText(blocks.value).Some? ==>
      r == Shorten(FirstText(blocks.value).value, PreviewLimit)
  {
    if blocks.None? || blocks.value == [] then NoContent
    else match FirstText(blocks.value)
      case Some(c) => Shorten(c, PreviewLimit)
      case None => ViewForDetails
  }

  /** The public preview passes the text through as it is: a first text block of at most
      150 characters is shown verbatim, markup included, so a text block can even read as a
      placeholder. The admin list shows the same block escaped. */
  lemma PreviewIsUnescaped(bs: seq<Block>)
    requires bs == [Text(NoContent)]
    ensures ContentPreview(Some(bs)) == NoContent
    ensures AdminLessons.ContentPreview(Some(bs)) != AdminLessons.NoContent
  {
    assert FirstText(bs) == Some(NoContent) by {
      assert bs[0].Text?;
    }
    AdminLessons.ContentPreviewShowsText(bs, NoContent);
  }

  // ---------------------------------------------------------------- filters

  /** A lesson matches a search term when its lowercased title, one of its lowercased tags
      or its lowercased category contains it; the id is not searched. */
  function SearchMatches(d: LessonDoc, term: string): (b: bool)
    ensures term == "" ==> b
    ensures Contains(ToLower(d.category), term) ==> b
  {
    ContainsEmpty(ToLower(d.title));
    Contains(ToLower(d.title), term) || SomeContains(d.tags, term) || Contains(ToLower(d.category), term)
  }

  /** The `applyFilters` predicate: the search term when there is one, and the category
      when one is selected. */
  function Keeps(search: string, category: string, d: LessonDoc): (b: bool)
    ensures b ==> SelectionMatches(category, d.category)
    ensures SearchTerm(search) == "" ==> (b <==> SelectionMatches(category, d.category))
  {
    var term := SearchTerm(search);
    (term == "" || SearchMatches(d, term)) && SelectionMatches(category, d.category)
  }

  /** The lessons `applyFilters` shows: those that pass, in load order. */
  function Filtered(all: seq<LessonDoc>, search: string, category: string): (r: seq<LessonDoc>)
    ensures IsSubsequence(r, all)
    ensures forall d :: d in r <==> d in all && Keeps(search, category, d)
  {
    FilterIsSubsequence(all, (d: LessonDoc) => Keeps(search, category, d));
    Filter(all, (d: LessonDoc) => Keeps(search, category, d))
  }

  /** `applyFilters()` on the page's lists. */
  method ApplyFilters(page: ListView<LessonDoc>, search: string, category: string)
    modifies page
    ensures page.all == old(page.all)
    ensures page.shown == Filtered(page.all, search, category)
  {
    page.Refine((d: LessonDoc) => Keeps(search, category, d));
  }

  /** A blank search and no category show every lesson, in load order. */
  lemma BlankFiltersShowAll(all: seq<LessonDoc>, search: string)
    requires AllSpace(search)
    ensures Filtered(all, search, "") == all
  {
    assert forall d :: Keeps(search, "", d) by {
      forall d ensures Keeps(search, "", d) {
        TrimAllSpace(ToLower(search));
      }
    }
    FilterKeepsAll(all, (d: LessonDoc) => Keeps(search, "", d));
  }

  /** The public search is narrower than the admin one: every lesson the public list shows
      for a search and category is also shown by the admin list for the same search and
      category, with any draft setting that lets the lesson through. */
  lemma PublicMatchesAdmin(search: string, category: string, draft: string, e: AdminLessons.LessonEntry)
    requires Keeps(search, category, e.doc) && DraftVisible(draft, e.draft)
    ensures AdminLessons.Keeps(AdminLessons.LessonFilters(search, category, draft), e)
  {
  }

  // ---------------------------------------------------------------- cards

  /** The title of a card: the lesson's title, or `Lesson #id` when that is empty. */
  function CardTitle(d: LessonDoc): (t: string)
    ensures t != ""
    ensures d.title != "" ==> t == d.title
    ensures d.title == "" ==> t == "Lesson #" + IdText(d.id)
  {
    if d.title != "" then d.title else "Lesson #" + IdText(d.id)
  }

  /** The card's `<h3>` shows the title escaped, so it never holds markup and decodes to the
      title. */
  lemma CardHeadingShowsTitle(d: LessonDoc)
    ensures '<' !in EscapeText(CardTitle(d))
    ensures Unescape(EscapeText(CardTitle(d))) == CardTitle(d)
  {
    EscapedHasNoMarkup(CardTitle(d), true, false);
    UnescapeEscape(CardTitle(d), true, false);
  }
}
