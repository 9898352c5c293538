/** The admin problem list (admin-problems.js): every stored problem, drafts included, with
    a statement preview per card, the search and select filters, and the button that
    creates a new draft under the next sequential id. */
module AdminProblems {
  import opened Wrappers
  import opened JsStrings
  import opened JsArrays
  import opened Blocks
  import opened Html
  import opened FormFields
  import opened Listing
  import opened ProblemEditor

  /** A stored problem as the list reads it: its `id`, the
      `draft` flag and `author`, and the fields the editor reads. */
  datatype ProblemEntry = ProblemEntry(id: StoredId, draft: bool, author: string, doc: ProblemDoc)

  // ---------------------------------------------------------------- statement preview

  const NoStatement: string := "<p><em>No statement available</em></p>"
  const ViewForDetails: string := "<p><em>View problem for details</em></p>"
  const PreviewLimit: nat := 200

  /** `getStatementPreview(statement)`: a placeholder for a missing or empty statement, the
      first text block shortened to 200 characters and escaped inside a paragraph, or a
      second placeholder when no block is text. */
  function StatementPreview(statement: seq<Block>): (r: string)
    ensures statement == [] ==> r == NoStatement
    ensures statement != [] && FirstText(statement).None? ==> r == ViewForDetails
    ensures FirstText(statement).Some? ==>
      r == "<p>" + EscapeText(Shorten(FirstText(statement).value, PreviewLimit)) + "</p>"
  {
    if statement == [] then NoStatement
    else match FirstText(statement)
      case Some(c) => "<p>" + EscapeText(Shorten(c, PreviewLimit)) + "</p>"
      case None => ViewForDetails
  }

  /** The paragraph of a text preview holds no markup, decodes to the shortened text, and
      can never be mistaken for either placeholder. */
  lemma StatementPreviewShowsText(statement: seq<Block>, c: string)
    requires FirstText(statement) == Some(c)
    ensures var r := StatementPreview(statement);
      exists m :: r == "<p>" + m + "</p>" && '<' !in m && Unescape(m) == Shorten(c, PreviewLimit)
    ensures StatementPreview(statement) != NoStatement
    ensures StatementPreview(statement) != ViewForDetails
  {
    var m := EscapeText(Shorten(c, PreviewLimit));
    EscapedHasNoMarkup(Shorten(c, PreviewLimit), true, false);
    UnescapeEscape(Shorten(c, PreviewLimit), true, false);
    assert StatementPreview(statement) == "<p>" + m + "</p>";
    ParagraphIsNoPlaceholder(m);
  }

  /** A paragraph around text without `<` differs from both placeholders, whose fourth
      character opens an `<em>`. */
  lemma ParagraphIsNoPlaceholder(m: string)
    requires '<' !in m
    ensures "<p>" + m + "</p>" != NoStatement && "<p>" + m + "</p>" != ViewForDetails
  {
    var r := "<p>" + m + "</p>";
    if m == [] {
      assert |r| == 7;
    } else {
      assert r[3] == m[0];
      assert NoStatement[3] == '<' && ViewForDetails[3] == '<';
    }
  }

  // ---------------------------------------------------------------- filters

  /** The four filter controls. */
  datatype ProblemFilters = ProblemFilters(search: string, category: string, difficulty: string, draft: string)

  /** A problem matches a search term when its lowercased title, its id written out, or one
      of its lowercased tags contains it. */
  function SearchMatches(p: ProblemEntry, term: string): (b: bool)
    ensures term == "" ==> b
    ensures p.id.Num? && term == IntToString(p.id.n) ==> b
  {
    ContainsEmpty(ToLower(p.doc.title));
    assert IdText(p.id) <= IdText(p.id);
    Contains(ToLower(p.doc.title), term) || Contains(IdText(p.id), term) || SomeContains(p.doc.tags, term)
  }

  /** The `applyFilters` predicate: the search term (lowercased, then trimmed) when there is
      one, an exact category and difficulty when selected, and the draft filter. */
  function Keeps(f: ProblemFilters, p: ProblemEntry): (b: bool)
    ensures b ==> (SelectionMatches(f.category, p.doc.category)
                   && SelectionMatches(f.difficulty, p.doc.difficulty) && DraftVisible(f.draft, p.draft))
    ensures f == ProblemFilters("", "", "", "") ==> b
  {
    assert SearchTerm("") == "";
    var term := SearchTerm(f.search);
    (term == "" || SearchMatches(p, term))
    && SelectionMatches(f.category, p.doc.category)
    && SelectionMatches(f.difficulty, p.doc.difficulty)
    && DraftVisible(f.draft, p.draft)
  }

  /** The problems `applyFilters` shows: those that pass, in load order. */
  function Filtered(all: seq<ProblemEntry>, f: ProblemFilters): (r: seq<ProblemEntry>)
    ensures IsSubsequence(r, all)
    ensures forall p :: p in r <==> p in all && Keeps(f, p)
  {
    FilterIsSubsequence(all, (p: ProblemEntry) => Keeps(f, p));
    Filter(all, (p: ProblemEntry) => Keeps(f, p))
  }

  /** `applyFilters()` on the page's lists. */
  method ApplyFilters(page: ListView<ProblemEntry>, f: ProblemFilters)
    modifies page
    ensures page.all == old(page.all)
    ensures page.shown == Filtered(page.all, f)
  {
    page.Refine((p: ProblemEntry) => Keeps(f, p));
  }

  /** Searching for a problem's id, with no other filter set, finds it. */
  lemma SearchFindsId(all: seq<ProblemEntry>, p: ProblemEntry, n: nat)
    requires p in all && p.id == Num(n)
    ensures p in Filtered(all, ProblemFilters(IntToString(n), "", "", ""))
  {
    var s := IntToString(n);
    NumberSearchTerm(n);
    assert s <= s;
    assert Contains(IdText(p.id), s);
  }

  /** The id search tells a problem saved with a non-numeric id, stored as NaN, from one with
      no id at all: "a" finds the first and not the second, and the lowercased term "nan"
      never finds the id text "NaN". */
  lemma SearchTellsNaNFromMissing(p: ProblemEntry)
    requires p.doc.title == "" && p.doc.tags == []
    ensures SearchMatches(p.(id := NaN), "a") && !SearchMatches(p.(id := Missing), "a")
    ensures !SearchMatches(p.(id := NaN), "nan")
  {
    IdTextsDiffer(0);
    assert ToLower("") == "";
    NotContainsFirst("", "a");
    NotContainsFirst("", "nan");
    assert !Contains(IdText(NaN), "nan") by {
      assert IdText(NaN) == "NaN";
      NotContainsFirst("aN", "nan");
      assert !("nan" <= "NaN");
    }
  }

  /** With every control empty, the whole list is shown in order. */
  lemma NoFiltersShowAll(all: seq<ProblemEntry>)
    ensures Filtered(all, ProblemFilters("", "", "", "")) == all
  {
    var keep := (p: ProblemEntry) => Keeps(ProblemFilters("", "", "", ""), p);
    assert SearchTerm("") == "";
    FilterKeepsAll(all, keep);
  }

  // ---------------------------------------------------------------- cards

  /** The title `createProblemCard` falls back to. */
  function DefaultTitle(id: StoredId): string {
    "Problem #" + IdText(id)
  }

  /** The escaped `<h3>` text of a card, None when the heading is left out because the
      title (or its fallback) equals `Problem #id`. */
  function Heading(p: ProblemEntry): (h: Option<string>)
    ensures h.Some? <==> p.doc.title != "" && p.doc.title != DefaultTitle(p.id)
    ensures h.Some? ==> '<' !in h.value && Unescape(h.value) == p.doc.title
  {
    var title := if p.doc.title != "" then p.doc.title else DefaultTitle(p.id);
    if title != DefaultTitle(p.id) then
      UnescapeEscape(title, true, false);
      EscapedHasNoMarkup(title, true, false);
      Some(EscapeText(title))
    else None
  }

  // ---------------------------------------------------------------- new drafts

  /** The draft document `createNewProblem` writes under id `id`. */
  function NewProblem(id: int): ProblemEntry {
    ProblemEntry(Num(id), true, "admin", ProblemDoc("", "", "Medium", [], [], [], []))
  }

  /** `createNewProblem()`: writes `NewProblem(nextId)` over whatever is stored under that
      id, and moves the counter to it. The id is free only while every stored id is within
      the counter, which the problem editor's save does not keep (see `SaveProblemTo`). */
  method CreateNewProblem(store: Collection<ProblemEntry>) returns (id: int)
    modifies store
    ensures id == NextId(old(store.latestId))
    ensures store.docs == old(store.docs)[id := NewProblem(id)]
    ensures store.latestId == Some(id)
    ensures old(store.Valid()) ==> id !in old(store.docs) && store.Valid()
  {
    id := store.Create(NewProblem);
  }

  /** The stored problem after the editor's payload is merged into it: every field the
      pages read is one the payload sets; a null title reads as "", the id is what `parseInt`
      gave, NaN included, and the solutions keep their ids. */
  function SavedEntry(p: ProblemPayload): (e: ProblemEntry)
    ensures e.id.Num? <==> p.id.Some?
    ensures e.doc.title == p.title.GetOr("") && e.draft == p.draft && e.author == p.author
    ensures e.doc.statement == p.statement && e.doc.lessons == p.lessons && e.doc.tags == p.tags
    ensures |e.doc.solutions| == |p.solutions|
    ensures forall i :: 0 <= i < |p.solutions| ==>
      e.doc.solutions[i] == StoredSolution(Some(p.solutions[i].id), p.solutions[i].blocks)
  {
    var sols := seq(|p.solutions|, i requires 0 <= i < |p.solutions| =>
                      StoredSolution(Some(p.solutions[i].id), p.solutions[i].blocks));
    ProblemEntry(OfParsed(p.id), p.draft, p.author,
      ProblemDoc(p.title.GetOr(""), p.category, p.difficulty, p.tags, p.lessons, p.statement, sols))
  }

  /** `saveProblem`'s `setDoc(..., { merge: true })` under the id typed into the form: the
      document is written whether or not it existed, and `meta/problems` is not touched. */
  method SaveProblemTo(store: Collection<ProblemEntry>, key: int, p: ProblemPayload)
    modifies store
    ensures store.docs == old(store.docs)[key := SavedEntry(p)]
    ensures store.latestId == old(store.latestId)
    ensures key > Ceiling(old(store.latestId)) ==> !store.Valid()
  {
    store.Put(key, SavedEntry(p));
  }

  /** The save as it should be: it also raises `meta/problems` to the typed id. */
  method SaveProblemRaisingCounter(store: Collection<ProblemEntry>, key: int, p: ProblemPayload)
    modifies store
    ensures store.docs == old(store.docs)[key := SavedEntry(p)]
    ensures store.latestId == if key > Ceiling(old(store.latestId)) then Some(key) else old(store.latestId)
    ensures old(store.Valid()) ==> store.Valid()
  {
    store.PutRaisingCounter(key, SavedEntry(p));
  }

  /** A published problem typed into a fresh editor under id 1. */
  const TypedProblem: ProblemPayload :=
    ProblemPayload(Some(1), Some("Typed"), "", "Medium", [], [], [], [], false, "admin")

  /** As written: a problem saved in the editor under id 1 of an empty store, followed by
      "New Problem", is replaced by the empty draft. */
  method NewAfterTypedSave() returns (id: int, stored: ProblemEntry)
    ensures id == 1 && stored == NewProblem(1) && stored != SavedEntry(TypedProblem)
  {
    var store := new Collection<ProblemEntry>();
    SaveProblemTo(store, 1, TypedProblem);
    id := CreateNewProblem(store);
    stored := store.docs[id];
  }

  /** Corrected: when the save raises the counter, "New Problem" takes id 2 and the typed
      problem is kept. */
  method NewAfterRaisedSave() returns (id: int, kept: ProblemEntry)
    ensures id == 2 && kept == SavedEntry(TypedProblem)
  {
    var store := new Collection<ProblemEntry>();
    SaveProblemRaisingCounter(store, 1, TypedProblem);
    id := CreateNewProblem(store);
    kept := store.docs[1];
  }

  /** A new draft is listed under "draft" and hidden under "published"; its card has no
      heading and previews the missing statement. */
  lemma NewProblemListed(id: int)
    ensures Keeps(ProblemFilters("", "", "", "draft"), NewProblem(id))
    ensures !Keeps(ProblemFilters("", "", "", "published"), NewProblem(id))
    ensures Heading(NewProblem(id)).None?
    ensures StatementPreview(NewProblem(id).doc.statement) == NoStatement
  {
    assert SearchTerm("") == "";
  }

  /** A new draft opens in the problem editor (reached as `edit-problem.html?id=<id>`) with
      an empty form and difficulty "Medium", and saving that form unchanged keeps it a
      draft with no title under the same id. */
  lemma NewProblemOpensInEditor(id: int)
    ensures var f := FormOf(NewProblem(id).doc, IntToString(id));
      f == ProblemForm(IntToString(id), "", "", "Medium", "", "")
      && var r := AssembleProblem(f, [], [], false);
      r.Ok? && r.value.id == Some(id) && r.value.title.None? && r.value.draft
      && r.value.difficulty == "Medium" && r.value.tags == [] && r.value.lessons == []
  {
    var s := IntToString(id);
    var f := FormOf(NewProblem(id).doc, s);
    assert f == ProblemForm(s, "", "", "Medium", "", "") by {
      assert NumberTexts([]) == [];
    }
    assert s != "";
    assert Tokens("", ',') == [] && LessonRefs("") == [];
    assert Trim("") == [];
    var r := AssembleProblem(f, [], [], false);
    assert r == Ok(ProblemPayload(ParseInt(s), None, "", "Medium", [], [], [], [], true, "admin"));
    ParseIntOfIntToString(id);
  }
}
