/** The local problem admin page (admin.js): a list of problems kept in the browser's local
    storage, edited through a modal form, searched, and merged with imported lists. */
module LocalAdmin {
  import opened Wrappers
  import opened JsStrings
  import opened JsArrays
  import opened Html
  import opened FormFields
  import opened Listing

  /** A stored problem. Missing text fields are "", missing lists empty; `others` holds
      whatever other fields the stored object carries, which the page never reads. */
  datatype LocalProblem = LocalProblem(
    id: string, title: string, statement: string, solution: string,
    tags: seq<string>, images: seq<string>, createdAt: string, updatedAt: Option<string>,
    others: map<string, string>)

  /** The raw values of the five fields of the editor form. */
  datatype EditorForm = EditorForm(title: string, tags: string, statement: string, solution: string, images: string)

  const BlankForm: EditorForm := EditorForm("", "", "", "", "")

  /** What `submit` reads from the form: trimmed texts, tags split on commas and image URLs
      split on newlines, each trimmed, blanks dropped. */
  datatype Fields = Fields(title: string, statement: string, solution: string, tags: seq<string>, images: seq<string>)

  /** JavaScript truthiness of `editingId`: null and "" are false. */
  predicate IsSet(e: Option<string>) {
    e.Some? && e.value != ""
  }

  // ---------------------------------------------------------------- form values

  /** The form `openEditor` fills for a stored problem. */
  function FormOf(p: LocalProblem): EditorForm {
    EditorForm(p.title, Join(p.tags, ", "), p.statement, p.solution, Join(p.images, "\n"))
  }

  /** The values `submit` reads from the form. */
  function ReadForm(f: EditorForm): (r: Fields)
    ensures IsTrimmed(r.title) && IsTrimmed(r.statement) && IsTrimmed(r.solution)
    ensures r.title == "" <==> AllSpace(f.title)
    ensures forall i :: 0 <= i < |r.tags| ==> IsToken(r.tags[i], ',')
    ensures forall i :: 0 <= i < |r.images| ==> IsToken(r.images[i], '\n')
  {
    TrimBlankIffAllSpace(f.title);
    Fields(Trim(f.title), Trim(f.statement), Trim(f.solution), Tokens(f.tags, ','), Tokens(f.images, '\n'))
  }

  /** The edited problem: the five fields replaced and `updatedAt` set; the id, `createdAt`
      and every other field kept. */
  function Updated(existing: LocalProblem, fs: Fields, now: string): (r: LocalProblem)
    ensures r.id == existing.id && r.createdAt == existing.createdAt && r.others == existing.others
    ensures r.title == fs.title && r.statement == fs.statement && r.solution == fs.solution
    ensures r.tags == fs.tags && r.images == fs.images && r.updatedAt == Some(now)
  {
    existing.(title := fs.title, statement := fs.statement, solution := fs.solution,
              tags := fs.tags, images := fs.images, updatedAt := Some(now))
  }

  /** The problem `submit` creates. */
  function Created(id: string, fs: Fields, now: string): LocalProblem {
    LocalProblem(id, fs.title, fs.statement, fs.solution, fs.tags, fs.images, now, None, map[])
  }

  /** A problem whose fields are as `submit` writes them. */
  predicate WellFormed(p: LocalProblem) {
    p.title != [] && IsTrimmed(p.title) && IsTrimmed(p.statement) && IsTrimmed(p.solution)
    && (forall i :: 0 <= i < |p.tags| ==> IsToken(p.tags[i], ','))
    && (forall i :: 0 <= i < |p.images| ==> IsToken(p.images[i], '\n'))
  }

  /** The text fields of a well-formed problem's form trim back to themselves. */
  lemma FormTextsRoundTrip(p: LocalProblem)
    requires IsTrimmed(p.title) && IsTrimmed(p.statement) && IsTrimmed(p.solution)
    ensures Trim(FormOf(p).title) == p.title && Trim(FormOf(p).statement) == p.statement
    ensures Trim(FormOf(p).solution) == p.solution
  {
    TrimmedFieldRoundTrip(p.title);
    TrimmedFieldRoundTrip(p.statement);
    TrimmedFieldRoundTrip(p.solution);
  }

  /** The joined tag and image fields of a well-formed problem's form split back into its
      lists. */
  lemma FormListsRoundTrip(p: LocalProblem)
    requires forall i :: 0 <= i < |p.tags| ==> IsToken(p.tags[i], ',')
    requires forall i :: 0 <= i < |p.images| ==> IsToken(p.images[i], '\n')
    ensures Tokens(FormOf(p).tags, ',') == p.tags && Tokens(FormOf(p).images, '\n') == p.images
  {
    TagsOfTagField(p.tags);
    TokensOfJoin(p.images, '\n', "");
    assert ['\n'] + "" == "\n";
  }

  /** The form of a well-formed problem reads back as its own fields. */
  lemma ReadFormOf(p: LocalProblem)
    requires WellFormed(p)
    ensures ReadForm(FormOf(p)) == Fields(p.title, p.statement, p.solution, p.tags, p.images)
  {
    var f := FormOf(p);
    assert ReadForm(f) == Fields(Trim(f.title), Trim(f.statement), Trim(f.solution), Tokens(f.tags, ','), Tokens(f.images, '\n'));
    FormTextsRoundTrip(p);
    FormListsRoundTrip(p);
  }

  /** Opening a problem and saving the form untouched changes only `updatedAt`, whenever
      its fields are as `submit` would have written them. */
  lemma EditRoundTrip(p: LocalProblem, now: string)
    requires WellFormed(p)
    ensures Updated(p, ReadForm(FormOf(p)), now) == p.(updatedAt := Some(now))
  {
    ReadFormOf(p);
  }

  /** Whatever the form holds, a saved problem is well formed. */
  lemma SubmittedIsWellFormed(f: EditorForm, existing: LocalProblem, id: string, now: string)
    requires !AllSpace(f.title)
    ensures WellFormed(Updated(existing, ReadForm(f), now))
    ensures WellFormed(Created(id, ReadForm(f), now))
  {
  }

  // ---------------------------------------------------------------- lookups and merges

  /** `problems.findIndex(p => p.id === id)`. */
  function IndexOfId(ps: seq<LocalProblem>, id: string): (r: Option<nat>)
    ensures r.Some? ==> r.value < |ps| && ps[r.value].id == id
    ensures r.Some? ==> forall j :: 0 <= j < r.value ==> ps[j].id != id
    ensures r.None? ==> forall j :: 0 <= j < |ps| ==> ps[j].id != id
  {
    FindIndex(ps, (p: LocalProblem) => p.id == id)
  }

  /** `problems.filter(p => p.id !== id)`. */
  function WithoutId(ps: seq<LocalProblem>, id: string): (r: seq<LocalProblem>)
    ensures IsSubsequence(r, ps)
    ensures forall p :: p in r <==> p in ps && p.id != id
  {
    FilterIsSubsequence(ps, (p: LocalProblem) => p.id != id);
    Filter(ps, (p: LocalProblem) => p.id != id)
  }

  /** Some problem of `ps` has this id (`ps.find(i => i.id === id)` is truthy). */
  predicate HasId(ps: seq<LocalProblem>, id: string) {
    exists i :: 0 <= i < |ps| && ps[i].id == id
  }

  /** `imported.concat(problems.filter(p => !imported.find(i => i.id === p.id)))`. */
  function Merged(existing: seq<LocalProblem>, imported: seq<LocalProblem>): (r: seq<LocalProblem>)
    ensures |r| >= |imported| && r[..|imported|] == imported
    ensures IsSubsequence(r[|imported|..], existing)
    ensures forall p :: p in r[|imported|..] <==> p in existing && !HasId(imported, p.id)
  {
    var kept := Filter(existing, (p: LocalProblem) => !HasId(imported, p.id));
    FilterIsSubsequence(existing, (p: LocalProblem) => !HasId(imported, p.id));
    assert (imported + kept)[|imported|..] == kept;
    imported + kept
  }

  /** No id is lost by an import: every id of the old list or of the imported one is an
      id of the merged list. */
  lemma MergeKeepsIds(existing: seq<LocalProblem>, imported: seq<LocalProblem>, id: string)
    requires HasId(existing, id) || HasId(imported, id)
    ensures HasId(Merged(existing, imported), id)
  {
    var r := Merged(existing, imported);
    if HasId(imported, id) {
      var i :| 0 <= i < |imported| && imported[i].id == id;
      assert r[i] == imported[i];
    } else {
      var i :| 0 <= i < |existing| && existing[i].id == id;
      var p := existing[i];
      assert p in r[|imported|..];
      var k :| 0 <= k < |r[|imported|..]| && r[|imported|..][k] == p;
      assert r[|imported| + k] == p;
    }
  }

  /** Importing the same list a second time changes nothing. */
  lemma MergeTwice(existing: seq<LocalProblem>, imported: seq<LocalProblem>)
    ensures Merged(Merged(existing, imported), imported) == Merged(existing, imported)
  {
    var keep := (p: LocalProblem) => !HasId(imported, p.id);
    var kept := Filter(existing, keep);
    var once := Merged(existing, imported);
    assert once == imported + kept;
    FilterAppend(imported, kept, keep);
    assert forall i :: 0 <= i < |imported| ==> !keep(imported[i]) by {
      forall i | 0 <= i < |imported| ensures HasId(imported, imported[i].id) {
      }
    }
    FilterKeepsNone(imported, keep);
    FilterKeepsAll(kept, keep);
    assert Filter(once, keep) == kept;
  }

  // ---------------------------------------------------------------- search and cards

  /** The search button: the problems whose title, statement or space-joined tags contain
      the trimmed, lowercased query, in list order. */
  function Searched(ps: seq<LocalProblem>, input: string): (r: seq<LocalProblem>)
    ensures IsSubsequence(r, ps)
    ensures forall p :: p in r <==> p in ps && TextMatches(p.title, p.statement, p.tags, Query(input))
  {
    var q := Query(input);
    FilterIsSubsequence(ps, (p: LocalProblem) => TextMatches(p.title, p.statement, p.tags, q));
    Filter(ps, (p: LocalProblem) => TextMatches(p.title, p.statement, p.tags, q))
  }

  /** A blank query shows every problem. */
  lemma SearchBlankShowsAll(ps: seq<LocalProblem>, input: string)
    requires AllSpace(input)
    ensures Searched(ps, input) == ps
  {
    TrimAllSpace(input);
    assert Query(input) == "";
    forall p: LocalProblem ensures TextMatches(p.title, p.statement, p.tags, "") {
      TextMatchesEmpty(p.title, p.statement, p.tags);
    }
    FilterKeepsAll(ps, (p: LocalProblem) => TextMatches(p.title, p.statement, p.tags, Query(input)));
  }

  /** The escaped heading and snippet of a card: the title or "(no title)", and the
      statement without tags, truncated to 160 characters by the page's own `truncate`,
      which appends the misencoded ellipsis. */
  function Card(p: LocalProblem): (string, string) {
    (EscapeMarkupQuoted(if p.title != "" then p.title else "(no title)"),
     EscapeMarkupQuoted(TruncateMisencoded(StripTags(p.statement), 160)))
  }

  /** Neither part of a card can hold markup or end an attribute value; the snippet decodes
      to the tag-free statement text, whole when it has at most 160 characters, and
      otherwise its first 159 characters and the three-character misencoded ellipsis: 162
      characters. */
  lemma CardIsSafe(p: LocalProblem)
    ensures var (h, s) := Card(p);
      var text := StripTags(p.statement);
      '<' !in h && '>' !in h && '"' !in h && '<' !in s && '>' !in s && '"' !in s
      && Unescape(h) == (if p.title != "" then p.title else "(no title)")
      && Unescape(s) == TruncateMisencoded(text, 160)
      && (|text| <= 160 ==> Unescape(s) == text)
      && (|text| > 160 ==> Unescape(s) == text[..159] + MisencodedEllipsis && |Unescape(s)| == 162)
  {
    var title := if p.title != "" then p.title else "(no title)";
    var snippet := TruncateMisencoded(StripTags(p.statement), 160);
    EscapeMarkupQuotedIsOnePass(title);
    EscapeMarkupQuotedIsOnePass(snippet);
    EscapedHasNoMarkup(title, false, true);
    EscapedHasNoMarkup(snippet, false, true);
    UnescapeEscape(title, false, true);
    UnescapeEscape(snippet, false, true);
  }

  // ---------------------------------------------------------------- the page

  /** `p` with `createdAt` filled in when it is missing. */
  function Stamp(p: LocalProblem, now: string): LocalProblem {
    if p.createdAt == "" then p.(createdAt := now) else p
  }

  /** `p` with a generated id and `createdAt` filled in where they are missing. */
  function Fill(p: LocalProblem, newId: string, now: string): LocalProblem {
    Stamp(if p.id == "" then p.(id := newId) else p, now)
  }

  /** The page's state: the problem list and the id the editor is open on. */
  class AdminPage {
    var problems: seq<LocalProblem>
    var editingId: Option<string>

    /** Start-up: the stored list, with each missing `createdAt` set to the time of
        loading, and the editor closed. */
    constructor(stored: seq<LocalProblem>, now: string)
      ensures |problems| == |stored| && editingId == None
      ensures forall i :: 0 <= i < |stored| ==> problems[i] == Stamp(stored[i], now)
    {
      var ps := stored;
      var i := 0;
      while i < |ps|
        invariant 0 <= i <= |ps| == |stored|
        invariant forall j :: 0 <= j < i ==> ps[j] == Stamp(stored[j], now)
        invariant forall j :: i <= j < |ps| ==> ps[j] == stored[j]
      {
        if ps[i].createdAt == "" {
          ps := ps[i := ps[i].(createdAt := now)];
        }
        i := i + 1;
      }
      problems := ps;
      editingId := None;
    }

    /** `openEditor(id)`: remembers the id in every case; a blank form for no id, the
        problem's values for a known id, nothing for an unknown one. */
    method OpenEditor(id: Option<string>) returns (form: Option<EditorForm>)
      modifies this
      ensures editingId == id && problems == old(problems)
      ensures !IsSet(id) ==> form == Some(BlankForm)
      ensures IsSet(id) ==> match IndexOfId(problems, id.value)
        case None => form.None?
        case Some(k) => form == Some(FormOf(problems[k]))
    {
      editingId := id;
      if !IsSet(id) {
        return Some(BlankForm);
      }
      match IndexOfId(problems, id.value)
      case None => form := None;
      case Some(k) => form := Some(FormOf(problems[k]));
    }

    /** The form's submit: a blank title changes nothing; with an editor open on a known id
        that problem is updated in place; with none open a new problem is put first. Saving
        closes the editor. */
    method Submit(f: EditorForm, now: string, newId: string) returns (saved: bool)
      modifies this
      ensures var fs := ReadForm(f);
        if fs.title == "" then !saved && problems == old(problems) && editingId == old(editingId)
        else if IsSet(old(editingId)) then
          match IndexOfId(old(problems), old(editingId).value)
          case None => !saved && problems == old(problems) && editingId == old(editingId)
          case Some(k) =>
            (saved && editingId == None && problems == old(problems)[k := Updated(old(problems)[k], fs, now)])
        else saved && editingId == None && problems == [Created(newId, fs, now)] + old(problems)
    {
      var fs := ReadForm(f);
      if fs.title == "" {
        return false;
      }
      if IsSet(editingId) {
        match IndexOfId(problems, editingId.value)
        case None =>
          return false;
        case Some(k) =>
          problems := problems[k := Updated(problems[k], fs, now)];
      } else {
        problems := [Created(newId, fs, now)] + problems;
      }
      editingId := None;
      saved := true;
    }

    /** The delete button: with an editor open and the deletion confirmed, every problem
        with that id goes and the editor closes; otherwise nothing changes. */
    method Delete(confirmed: bool)
      modifies this
      ensures IsSet(old(editingId)) && confirmed ==>
        problems == WithoutId(old(problems), old(editingId).value) && editingId == None
      ensures !(IsSet(old(editingId)) && confirmed) ==>
        problems == old(problems) && editingId == old(editingId)
    {
      if !IsSet(editingId) || !confirmed {
        return;
      }
      problems := WithoutId(problems, editingId.value);
      editingId := None;
    }

    /** An import: `data` is None when the file is not a JSON array, and leaves the list as
        it is. Otherwise each imported problem gets a generated id (`newIds(i)` for the
        i-th) and the import time where they are missing, and the list becomes the imported
        problems followed by the old ones whose id was not imported. */
    method Import(data: Option<seq<LocalProblem>>, newIds: nat -> string, now: string) returns (ok: bool)
      modifies this
      ensures ok <==> data.Some?
      ensures editingId == old(editingId)
      ensures !ok ==> problems == old(problems)
      ensures ok ==> problems == Merged(old(problems), Filled(data.value, newIds, now))
    {
      if data.None? {
        return false;
      }
      var imported := data.value;
      var i := 0;
      while i < |imported|
        invariant 0 <= i <= |imported| == |data.value|
        invariant forall j :: 0 <= j < i ==> imported[j] == Fill(data.value[j], newIds(j), now)
        invariant forall j :: i <= j < |imported| ==> imported[j] == data.value[j]
      {
        imported := imported[i := Fill(imported[i], newIds(i), now)];
        i := i + 1;
      }
      assert imported == Filled(data.value, newIds, now);
      problems := Merged(problems, imported);
      ok := true;
    }
  }

  /** The imported problems with missing ids and creation times filled in. */
  function Filled(items: seq<LocalProblem>, newIds: nat -> string, now: string): (r: seq<LocalProblem>)
    ensures |r| == |items|
    ensures forall i :: 0 <= i < |items| ==> r[i] == Fill(items[i], newIds(i), now)
  {
    seq(|items|, i requires 0 <= i < |items| => Fill(items[i], newIds(i), now))
  }

  /** After an import every problem it brought has an id and a creation time, whenever the
      generated ids and the import time are not blank. */
  lemma FilledComplete(items: seq<LocalProblem>, newIds: nat -> string, now: string)
    requires now != "" && forall i: nat :: newIds(i) != ""
    ensures forall p :: p in Filled(items, newIds, now) ==> p.id != "" && p.createdAt != ""
  {
  }
}
