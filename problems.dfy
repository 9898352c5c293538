/** The public problem list (problems.js): the loaded problems, a text search over them,
    and pages of 50 cards with previous and next buttons. */
module ProblemsPage {
  import opened Wrappers
  import opened JsStrings
  import opened JsArrays
  import opened Html
  import opened Listing

  // ---------------------------------------------------------------- records

  /** A stored problem document; each field is None when it is missing or null. Ids and
      timestamps are kept as the numbers they hold. */
  datatype StoredProblem = StoredProblem(
    id: Option<int>, title: Option<string>, statement: Option<string>, solution: Option<string>,
    tags: Option<seq<string>>, images: Option<seq<string>>,
    createdAt: Option<int>, updatedAt: Option<int>)

  /** The record the page keeps per problem: the document id and the stored fields, text
      and lists defaulted to empty, id and timestamps left null. */
  datatype ProblemRecord = ProblemRecord(
    docId: string, id: Option<int>, title: string, statement: string, solution: string,
    tags: seq<string>, images: seq<string>, createdAt: Option<int>, updatedAt: Option<int>)

  /** The record `loadProblemsFromFirestore` builds from one document (`x ?? default`). */
  function LoadRecord(docId: string, d: StoredProblem): (r: ProblemRecord)
    ensures r.docId == docId && r.id == d.id && r.createdAt == d.createdAt && r.updatedAt == d.updatedAt
    ensures d.title.None? ==> r.title == ""
    ensures d.statement.None? ==> r.statement == ""
    ensures d.solution.None? ==> r.solution == ""
    ensures d.tags.None? ==> r.tags == []
    ensures d.images.None? ==> r.images == []
  {
    ProblemRecord(docId, d.id, d.title.GetOr(""), d.statement.GetOr(""), d.solution.GetOr(""),
                  d.tags.GetOr([]), d.images.GetOr([]), d.createdAt, d.updatedAt)
  }

  /** The document a record would be stored as, every field present. */
  function StoredOf(r: ProblemRecord): StoredProblem {
    StoredProblem(r.id, Some(r.title), Some(r.statement), Some(r.solution), Some(r.tags),
                  Some(r.images), r.createdAt, r.updatedAt)
  }

  /** A document with every field present loads as exactly the record it holds: the
      defaults only fill in what is missing. */
  lemma LoadRecordOfStored(r: ProblemRecord)
    ensures LoadRecord(r.docId, StoredOf(r)) == r
  {
  }

  // ---------------------------------------------------------------- pages

  const PageSize: nat := 50

  /** `Math.max(1, Math.ceil(n / PAGE_SIZE))`: the fewest pages of 50 that hold `n` items,
      and at least one. */
  function TotalPages(n: nat): (t: nat)
    ensures t >= 1
    ensures n <= t * PageSize
    ensures n == 0 || (t - 1) * PageSize < n
  {
    if n == 0 then 1 else (n + PageSize - 1) / PageSize
  }

  function Min(a: int, b: int): int {
    if a <= b then a else b
  }

  /** `filtered.slice(start, start + PAGE_SIZE)` with `start = (page - 1) * PAGE_SIZE`. */
  function PageItems<T>(xs: seq<T>, page: int): (r: seq<T>)
    ensures |r| <= PageSize
    ensures page >= 1 ==> r == xs[Min((page - 1) * PageSize, |xs|)..Min(page * PageSize, |xs|)]
  {
    var start := (page - 1) * PageSize;
    Slice(xs, start, start + PageSize)
  }

  /** The pages 1 to `k`, one after the other. */
  function PagesUpTo<T>(xs: seq<T>, k: nat): seq<T> {
    if k == 0 then [] else PagesUpTo(xs, k - 1) + PageItems(xs, k)
  }

  lemma {:induction false} PagesUpToPrefix<T>(xs: seq<T>, k: nat)
    ensures PagesUpTo(xs, k) == xs[..Min(k * PageSize, |xs|)]
  {
    if k > 0 {
      PagesUpToPrefix(xs, k - 1);
      var a := Min((k - 1) * PageSize, |xs|);
      var b := Min(k * PageSize, |xs|);
      assert xs[..a] + xs[a..b] == xs[..b];
    }
  }

  /** The pages split the list: read one after the other from the first to the last, they
      give back every item in order, none twice. */
  lemma PagesCoverList<T>(xs: seq<T>)
    ensures PagesUpTo(xs, TotalPages(|xs|)) == xs
  {
    PagesUpToPrefix(xs, TotalPages(|xs|));
  }

  /** Every page from the first to the last shows something, unless the list is empty. */
  lemma PagesInRangeNonEmpty<T>(xs: seq<T>, page: int)
    requires xs != [] && 1 <= page <= TotalPages(|xs|)
    ensures PageItems(xs, page) != []
  {
    var t := TotalPages(|xs|);
    assert (page - 1) * PageSize <= (t - 1) * PageSize;
  }

  // ---------------------------------------------------------------- search

  /** A record matches a query when its lowercased title, statement or space-joined tags
      contain it. */
  function Matches(q: string, p: ProblemRecord): (b: bool)
    ensures q == "" ==> b
    ensures forall i :: 0 <= i < |p.tags| && Contains(ToLower(p.tags[i]), q) ==> b
  {
    TextMatchesEmpty(p.title, p.statement, p.tags);
    assert forall i :: 0 <= i < |p.tags| && Contains(ToLower(p.tags[i]), q) ==>
      TextMatches(p.title, p.statement, p.tags, q) by {
      forall i | 0 <= i < |p.tags| && Contains(ToLower(p.tags[i]), q) {
        TextMatchesTag(p.title, p.statement, p.tags, q, i);
      }
    }
    TextMatches(p.title, p.statement, p.tags, q)
  }

  /** The list `doSearch` shows: all problems for a blank query, otherwise the matching ones
      in load order. */
  function Searched(problems: seq<ProblemRecord>, input: string): (r: seq<ProblemRecord>)
    ensures Query(input) == "" ==> r == problems
    ensures IsSubsequence(r, problems)
    ensures forall p :: p in r <==> p in problems && Matches(Query(input), p)
  {
    var q := Query(input);
    if q == "" then
      SearchBlankKeepsAll(problems);
      FilterIsSubsequence(problems, (p: ProblemRecord) => Matches(q, p));
      problems
    else
      FilterIsSubsequence(problems, (p: ProblemRecord) => Matches(q, p));
      Filter(problems, (p: ProblemRecord) => Matches(q, p))
  }

  /** The blank-query branch changes nothing: filtering with an empty query would keep
      every problem anyway. */
  lemma SearchBlankKeepsAll(problems: seq<ProblemRecord>)
    ensures Filter(problems, (p: ProblemRecord) => Matches("", p)) == problems
  {
    forall p: ProblemRecord ensures Matches("", p) {
      TextMatchesEmpty(p.title, p.statement, p.tags);
    }
    FilterKeepsAll(problems, (p: ProblemRecord) => Matches("", p));
  }

  // ---------------------------------------------------------------- the page

  /** The page: loaded problems, the filtered list, the current page, the cards on it and
      the two buttons. */
  class Page {
    var problems: seq<ProblemRecord>
    var filtered: seq<ProblemRecord>
    var currentPage: int
    var items: seq<ProblemRecord>
    var prevDisabled: bool
    var nextDisabled: bool

    /** What `renderPage` leaves behind, with the page within the bounds. */
    predicate Valid()
      reads this
    {
      1 <= currentPage <= TotalPages(|filtered|)
      && items == PageItems(filtered, currentPage)
      && prevDisabled == (currentPage <= 1)
      && nextDisabled == (currentPage >= TotalPages(|filtered|))
    }

    /** Start-up: the loaded problems, all shown, page 1 rendered. */
    constructor(loaded: seq<ProblemRecord>)
      ensures problems == loaded && filtered == loaded && currentPage == 1
      ensures Valid()
    {
      problems := loaded;
      filtered := loaded;
      currentPage := 1;
      items := PageItems(loaded, 1);
      prevDisabled := true;
      nextDisabled := 1 >= TotalPages(|loaded|);
    }

    /** `renderPage(page)`: the slice for that page and the button states. */
    method RenderPage(page: int)
      modifies this
      ensures problems == old(problems) && filtered == old(filtered)
      ensures currentPage == page && items == PageItems(filtered, page)
      ensures prevDisabled == (page <= 1)
      ensures nextDisabled == (page >= TotalPages(|filtered|))
    {
      currentPage := page;
      items := PageItems(filtered, page);
      prevDisabled := page <= 1;
      nextDisabled := page >= TotalPages(|filtered|);
    }

    /** The previous button: one page back unless on the first page. */
    method Prev()
      requires Valid()
      modifies this
      ensures Valid()
      ensures problems == old(problems) && filtered == old(filtered)
      ensures currentPage == if old(currentPage) > 1 then old(currentPage) - 1 else old(currentPage)
    {
      if currentPage > 1 {
        RenderPage(currentPage - 1);
      }
    }

    /** The next button: one page on unless on the last page. */
    method Next()
      requires Valid()
      modifies this
      ensures Valid()
      ensures problems == old(problems) && filtered == old(filtered)
      ensures currentPage == if old(currentPage) < TotalPages(|filtered|) then old(currentPage) + 1 else old(currentPage)
    {
      var tot := TotalPages(|filtered|);
      if currentPage < tot {
        RenderPage(currentPage + 1);
      }
    }

    /** `doSearch()`: the searched list from page 1. */
    method Search(input: string)
      modifies this
      ensures problems == old(problems)
      ensures filtered == Searched(problems, input) && currentPage == 1
      ensures Valid()
    {
      var q := Query(input);
      if q == "" {
        filtered := problems;
      } else {
        filtered := Filter(problems, (p: ProblemRecord) => Matches(q, p));
      }
      RenderPage(1);
    }

    /** The clear button: every problem again, from page 1. */
    method Clear()
      modifies this
      ensures problems == old(problems)
      ensures filtered == problems && currentPage == 1
      ensures Valid()
    {
      filtered := problems;
      RenderPage(1);
    }
  }

  // ---------------------------------------------------------------- cards

  /** The escaped heading and snippet of a card: the title or "(no title)", and the
      statement without tags, truncated to 220 characters. */
  function Card(p: ProblemRecord): (string, string) {
    (EscapeMarkup(if p.title != "" then p.title else "(no title)"),
     EscapeMarkup(Truncate(StripTags(p.statement), 220)))
  }

  /** Neither part of a card can hold markup; the heading decodes to the title (or its
      placeholder) and the snippet to at most 220 characters of tag-free statement text. */
  lemma CardIsSafe(p: ProblemRecord)
    ensures var (h, s) := Card(p);
      '<' !in h && '>' !in h && '<' !in s && '>' !in s
      && Unescape(h) == (if p.title != "" then p.title else "(no title)")
      && Unescape(s) == Truncate(StripTags(p.statement), 220)
      && |Unescape(s)| <= 220
  {
    var title := if p.title != "" then p.title else "(no title)";
    var snippet := Truncate(StripTags(p.statement), 220);
    EscapeMarkupIsOnePass(title);
    EscapeMarkupIsOnePass(snippet);
    EscapedHasNoMarkup(title, false, false);
    EscapedHasNoMarkup(snippet, false, false);
    UnescapeEscape(title, false, false);
    UnescapeEscape(snippet, false, false);
  }

  /** A document missing its title and statement shows the placeholder title and an empty
      snippet. */
  lemma MissingFieldsCard(docId: string, d: StoredProblem)
    requires d.title.None? && d.statement.None?
    ensures Card(LoadRecord(docId, d)) == (EscapeMarkup("(no title)"), "")
  {
    assert StripTags("") == "";
  }
}
