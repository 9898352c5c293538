# azmath site scripts, modelled in Dafny

azmath is a small mathematics site. It has lessons and problems built from content blocks, and an
admin area for editing them. This project models the browser scripts that hold the site's own
logic:

- **The lesson editor** (`js/edit-lesson.js`) keeps the lesson body as a list of content blocks
  and the controls rendered for them. The move, delete and add buttons change the list and
  render the controls again, and what was typed into them is lost. Save and the preview button
  read the controls back into the blocks. The editor writes the payloads into its markup
  unescaped, fills its form from a stored lesson and assembles the stored document on save.
- **The problem editor** (`js/edit-problem.js`) keeps the statement and the solutions as block
  editor elements in the page. It reads blocks back out of those elements by their captions, and
  numbers solutions with a counter. It assembles the stored problem on save and renders a
  preview (as written the button never shows it; see Findings).
- **The four listing pages** (`js/admin-problems.js`, `js/admin-lessons.js`, `js/lessons.js`,
  `js/problems.js`) share the same behaviour:
  - filter a loaded list by a search term and select controls;
  - preview the first text block of each entry;
  - create new drafts under the next sequential id;
  - paginate the public problem list.
- **The local admin page** (`js/admin.js`) keeps a problem list in the browser's local storage.
  It supports creating, editing, deleting, searching and importing problems.
- **The user management page** (`js/users.js`) sorts profiles newest first and renders one row
  per profile with its role badge and action buttons. It applies approve, make-admin, demote and
  delete to the profile collection, and filters the list.

Shared modules model the pieces of JavaScript these scripts rely on:

- `JsStrings`: `trim`, `split`/`join`, `includes`, `toLowerCase`, `parseInt` per section 19.2.5
  of ECMA-262, `String(n)` and `slice`.
- `JsArrays`: `filter` and `findIndex`.
- `Html`: the site's three `escapeHtml` helpers, `stripTags` and `truncate`.
- `FormFields`: the comma-separated id and tag fields.
- `Browser`: how the page reads back what the editors wrote into their markup, per the HTML
  Living Standard. A textarea's content ends at its end tag (sections 13.2.5.11 to 13.2.5.13).
  Line breaks are normalised (section 13.2.3.5), and a line feed right after the start tag is
  dropped (section 13.2.6.4.7). A text input loses its line breaks (section 4.10.5.1.2), and a
  number input keeps only a valid floating-point number (sections 4.10.5.1.12 and 2.3.4.3).

Each module follows the shape of the script it models:

- Pages that mutate state are classes with `modifies` frames:
  - `LessonEditor.ContentBlocks`, `ProblemEditor.ProblemEditor`, `ProblemsPage.Page`,
    `LocalAdmin.AdminPage` and `UsersPage.UserStore`;
  - `Listing.ListView`, the loaded and shown lists;
  - `Listing.Collection`, a keyed document store with its latest id.
- Loops in the source are methods with loop invariants, proved against a specification function:
  - `Gather` and `CollectSolutions`;
  - `ContentBlocks.UpdateBlocksFromInputs`;
  - `LoadStatement` and `LoadSolutions`;
  - `SortNewestFirst`.
- Pure rendering and parsing are functions, and their properties are lemmas.

Stored documents are values. A field that is absent in storage is written as it reads after the
script's `||` default: `""` or `[]`. Where the script uses `??` or tells absence apart, the model
uses `Option`. Clocks, generated ids, the signed-in user, confirmation dialogs and the
database's answers are parameters of the operations that use them.

## Model

| member | source | states |
|---|---|---|
| LessonEditor.WithField | js/edit-lesson.js:120-135 | writing an input never changes a block's type; it sets the field that type owns, and a block without an input is left as it was |
| LessonEditor.WriteInput | js/edit-lesson.js:126-133 | one input keeps the number of blocks; an index with no block is skipped |
| LessonEditor.ApplyInputs | js/edit-lesson.js:120-135 | applying every input in document order keeps the number of blocks |
| LessonEditor.ApplyInputsKeepsKinds | js/edit-lesson.js:120-135 | after the inputs are applied, every block keeps its type, and a block without an input (lesson reference, unknown type) is unchanged |
| LessonEditor.ApplyInputsUntouched | js/edit-lesson.js:120-135 | a block that no input names keeps its value |
| LessonEditor.ApplyInputsLastWins | js/edit-lesson.js:120-135 | when several inputs name one block, the last one decides that block's field |
| LessonEditor.ApplyUneditedInputs | js/edit-lesson.js:120-135 | inputs that still hold the values they were rendered with leave the blocks unchanged |
| LessonEditor.ReadBack | js/edit-lesson.js:120-135 | a block read back from its own control keeps its type; its field becomes what the control holds (control rendered at lines 63-94) |
| LessonEditor.ReadBackAll | js/edit-lesson.js:120-135 | the blocks read back one by one, in order |
| LessonEditor.EditorInputs | js/edit-lesson.js:51-100 | one input per block with a control, in block order; each names its block and holds the value that control reads from the markup the payload was written into (textarea at line 63, text input at 77-78, number input at 93-94) |
| LessonEditor.RenderedInputsKeepBlocks | js/edit-lesson.js:120-135 | reading back an editor nobody typed into gives each block as its control reads it; lesson references and unknown types are untouched (rendered at lines 51-100) |
| LessonEditor.ReadBackPlain | js/edit-lesson.js:51-100 | blocks whose payload the raw markup keeps (text without `<`, `&`, CR or leading LF; a url without `"`, `&` or line breaks; a problem id that is empty or a valid number) read back unchanged |
| LessonEditor.EntityInTextIsDecoded | js/edit-lesson.js:63 | as written, a text block holding `&lt;` reads back and is saved as `<` |
| LessonEditor.QuoteInUrlIsCut | js/edit-lesson.js:77-78 | as written, an image url `a"b` reads back and is saved as `a` |
| LessonEditor.ReadBackEscaped | js/edit-lesson.js:51-100 | corrected: with payloads escaped for an attribute, every block the controls themselves keep reads back unchanged, `&`, `<` and `"` included |
| LessonEditor.EditorHeader | js/edit-lesson.js:53-62 | an editor block always opens with a header |
| LessonEditor.RenderBlockEditor | js/edit-lesson.js:51-100 | a block renders an editor exactly when its type is text, image or problem reference; any other type renders "" |
| LessonEditor.RenderBlockPreview | js/edit-lesson.js:219-230 | a block has a preview exactly when it has an editor input |
| LessonEditor.PreviewSkipsFieldless | js/edit-lesson.js:219-230 | a block with no preview leaves the joined preview as if it were not in the list (joined at line 206) |
| LessonEditor.PreviewKeepsText | js/edit-lesson.js:220 | text content reaches the preview verbatim, markup included |
| LessonEditor.Preview | js/edit-lesson.js:197-206 | the preview title and category are never blank: the form's value when non-empty, a placeholder otherwise; the tags are the list that would be saved |
| LessonEditor.LoadedBlocks | js/edit-lesson.js:37 | a lesson without stored blocks opens with one empty text block; otherwise with its stored blocks |
| LessonEditor.FormOf | js/edit-lesson.js:30-35 | the id field shows a stored non-zero number and otherwise the id in the URL (NaN and a missing id are falsy); title, category and cover as stored; tags and problem ids joined by ", " |
| LessonEditor.AssembleLesson | js/edit-lesson.js:157-174 | save is refused exactly when the title is white space only; otherwise the payload holds the trimmed title and cover, the category as typed, the id as `parseInt` of the id field, the tags as the trimmed non-empty comma pieces, the problem ids as the pieces that parse (NaN dropped, order kept), and the blocks, draft flag, author and time as given |
| LessonEditor.IdFieldRoundTrip | js/edit-lesson.js:164 | a stored non-zero id shown in the id field reads back as that id (shown at line 30) |
| LessonEditor.SaveAfterLoad | js/edit-lesson.js:157-174 | opening a well-formed stored lesson and saving it unchanged writes back its id, title, category, tags, cover and problem ids (form filled at lines 30-35) |
| LessonEditor.ContentBlocks.constructor | js/edit-lesson.js:11 | the page starts with no blocks, no controls and the preview hidden |
| LessonEditor.ContentBlocks.Load | js/edit-lesson.js:29-38 | loading fills the form from the stored lesson, sets the blocks as `LoadedBlocks` says and renders their controls |
| LessonEditor.ContentBlocks.Render | js/edit-lesson.js:45-48 | `renderContentBlocks` rebuilds the controls from the blocks as `EditorInputs` of the raw markup, discarding what was typed |
| LessonEditor.ContentBlocks.TypeInto | js/edit-lesson.js:120-135 | typing sets the value of one control and nothing else; the blocks change only when the controls are read at lines 120-135 |
| LessonEditor.ContentBlocks.MoveBlock | js/edit-lesson.js:103-110 | a move swaps the block with its neighbour in that direction and re-renders the controls, dropping what was typed; at either end nothing changes; the blocks are permuted, never lost |
| LessonEditor.ContentBlocks.DeleteBlock | js/edit-lesson.js:113-117 | the one-element splice of `deleteBlock`, with one empty text block put back when nothing is left, then a re-render; the list is never empty afterwards |
| LessonEditor.ContentBlocks.AddBlock | js/edit-lesson.js:138-151 | each add button appends one empty block of its type and re-renders the controls; earlier blocks are kept |
| LessonEditor.ContentBlocks.UpdateBlocksFromInputs | js/edit-lesson.js:120-135 | the loop over the current controls leaves the blocks `ApplyInputs` describes; the controls are not rebuilt |
| LessonEditor.ContentBlocks.SaveLesson | js/edit-lesson.js:154-174 | save first applies the current controls to the blocks, then returns the assembled payload or the refusal |
| LessonEditor.ContentBlocks.TogglePreview | js/edit-lesson.js:189-217 | the current controls are applied, the pane switches, and a preview of the current form and blocks is built only when switching to it |
| LessonEditor.SaveAfterRender | js/edit-lesson.js:103-151 | saving right after a move, delete or add writes the blocks as their re-rendered controls read them back, and plain blocks unchanged; what was typed before is lost |
| ProblemEditor.ElementWith | js/edit-problem.js:13-73 | an element is built exactly for the four block types the editor knows |
| ProblemEditor.CreateBlockElementAsWritten | js/edit-problem.js:13-73 | the page's `createBlockElement`, which escapes attribute values with the DOM escaper, builds an element for exactly the four known types |
| ProblemEditor.CreateBlockElement | js/edit-problem.js:13-73 | the corrected builder, which also escapes `"` in attribute values, builds an element for exactly the four known types |
| ProblemEditor.Gather | js/edit-problem.js:92-114 | the gathering loop reads the blocks `GatherBlocks` describes |
| ProblemEditor.GatherBlocks | js/edit-problem.js:92-114 | no more blocks are read than there are elements |
| ProblemEditor.GatherAppend | js/edit-problem.js:92-114 | gathering two runs of elements gives the two block lists in order |
| ProblemEditor.ReadBack | js/edit-problem.js:92-114 | a block read back from its element keeps its type: text as the textarea returns it (line breaks normalised, a leading LF dropped), a URL or reference id cut at its first `"` and without line breaks |
| ProblemEditor.ReadBackClean | js/edit-problem.js:92-114 | a clean block reads back as itself |
| ProblemEditor.ImageCaptionWords | js/edit-problem.js:102-109 | the image caption holds the word the gatherer looks for (caption of line 20) |
| ProblemEditor.ProblemCaptionWords | js/edit-problem.js:102-109 | the problem reference caption holds "Problem" and not "Image", so it is classified as a problem reference (caption of line 44) |
| ProblemEditor.LessonCaptionWords | js/edit-problem.js:102-109 | the lesson reference caption holds "Lesson" and neither "Image" nor "Problem", so it falls through to the lesson branch (caption of line 56) |
| ProblemEditor.ClassifyElement | js/edit-problem.js:92-114 | with the builder as written, the element of a known block reads back as `ReadBack` of it: text as the textarea returns it, a URL or reference id cut at its first `"` and without line breaks (elements built at lines 13-73) |
| ProblemEditor.Classify | js/edit-problem.js:96-111 | an element with a textarea is a text block; otherwise an input becomes an image, problem or lesson block by the first caption word it contains, and an element with neither, or with none of the three words, is dropped; never an unknown type |
| ProblemEditor.ClassifyCorrectedElement | js/edit-problem.js:92-114 | corrected: with `"` escaped in attribute values, every known block whose text and inputs the controls keep reads back as itself |
| ProblemEditor.LeadingNewlineIsLost | js/edit-problem.js:27 | a text block starting with a line feed reads back without it |
| ProblemEditor.QuotedUrlIsCut | js/edit-problem.js:39 | concrete case: the URL `a"b` reads back as `a` (escaper at lines 172-176) |
| ProblemEditor.ElementsOf | js/edit-problem.js:257-259 | one element per known block, in order, built as written |
| ProblemEditor.ReadBackAll | js/edit-problem.js:92-114 | the blocks read back one by one, in order |
| ProblemEditor.ReadBackAllClean | js/edit-problem.js:92-114 | clean blocks read back unchanged |
| ProblemEditor.GatherElements | js/edit-problem.js:92-114 | rendering known blocks into elements and gathering them gives `ReadBackAll` of the blocks (elements rendered at lines 257-259) |
| ProblemEditor.FirstUnknown | js/edit-problem.js:257-259 | the position where the rendering loop throws: every block before it is known, and the block there is not |
| ProblemEditor.CreateElements | js/edit-problem.js:257-259 | the elements appended before the loop throws; all blocks get one exactly when all are known |
| ProblemEditor.ElementsOfStep | js/edit-problem.js:257-259 | each iteration before the failure appends the element of the next block |
| ProblemEditor.MoveChild | js/edit-problem.js:76-89 | the remove-and-insert of `moveBlock` is a swap with the neighbour, and does nothing at either end |
| ProblemEditor.DatasetSolutionId | js/edit-problem.js:285 | the saved solution id is never 0: `parseInt` of the attribute, or the position plus one |
| ProblemEditor.SolutionId | js/edit-problem.js:285 | a solution with a non-zero id keeps it; any other gets its position plus one |
| ProblemEditor.SolutionIdOfDataId | js/edit-problem.js:285 | parsing the `data-solution-id` text gives the same id as the editor's own number |
| ProblemEditor.GatherSolutions | js/edit-problem.js:283-291 | one saved solution per editor, with its id and its gathered blocks |
| ProblemEditor.CollectSolutions | js/edit-problem.js:283-291 | the gathering loop of save reads what `GatherSolutions` describes |
| ProblemEditor.Bump | js/edit-problem.js:263 | raising the counter to a stored id leaves it at least that id and never lowers it |
| ProblemEditor.MaxId | js/edit-problem.js:262-266 | after the stored solutions are visited, the counter is at least every id among them |
| ProblemEditor.FirstFailing | js/edit-problem.js:262-266 | the first stored solution whose blocks make the render throw; every earlier one renders |
| ProblemEditor.LoadedSolutions | js/edit-problem.js:262-266 | one solution editor per stored solution before the failure |
| ProblemEditor.LoadedStep | js/edit-problem.js:262-266 | each iteration before the failure appends the editor of the next stored solution |
| ProblemEditor.MaxIdStep | js/edit-problem.js:263 | each iteration raises the counter by one `Bump` |
| ProblemEditor.LoadedWithinCounter | js/edit-problem.js:262-266 | every loaded editor's id is within the counter, so new solutions get fresh ids |
| ProblemEditor.StoredAsSaved | js/edit-problem.js:283-291 | stored solutions as save writes them after loading: the same ids, and each block as its element reads back |
| ProblemEditor.SaveLoadedSolution | js/edit-problem.js:283-291 | a loaded solution saves with its stored id and its blocks as they read back (loaded at lines 263-266) |
| ProblemEditor.SaveLoadedAt | js/edit-problem.js:283-291 | the solution at each position saves with its stored id and read-back blocks (loaded at lines 263-266) |
| ProblemEditor.SaveLoadedSolutions | js/edit-problem.js:283-291 | loading solutions and saving them straight away gives `StoredAsSaved` of the stored list (loaded at lines 263-266) |
| ProblemEditor.NumberTexts | js/edit-problem.js:253 | one text per stored lesson id, in order |
| ProblemEditor.LessonRefs | js/edit-problem.js:301 | one parsed entry per non-blank piece of the field |
| ProblemEditor.ParseIntNaN | js/edit-problem.js:301 | a NaN written into the field reads back as NaN (written at line 253) |
| ProblemEditor.ParseNumberText | js/edit-problem.js:301 | each stored lesson id, NaN included, reads back as itself (written at line 253) |
| ProblemEditor.ParseEachNumberTexts | js/edit-problem.js:301 | the written-out ids parse back to the stored list (written at line 253) |
| ProblemEditor.NumberTextIsToken | js/edit-problem.js:253 | a written-out id is a well-formed list entry |
| ProblemEditor.LessonRefsRoundTrip | js/edit-problem.js:301 | a stored lesson id list shown in its field and read back is unchanged (written at line 253) |
| ProblemEditor.FormOf | js/edit-problem.js:241-253 | the form the loader fills: the id from the URL, a missing difficulty as "Medium", tags and lesson ids joined by ", " with NaN written "NaN" |
| ProblemEditor.LessonRefsKeepNaN | js/edit-problem.js:301 | a typed `3, x, 5` saves the lesson ids 3, NaN and 5 |
| ProblemEditor.AssembleProblem | js/edit-problem.js:275-305 | save is refused exactly when the id field is empty; a blank title is stored as null and any other trimmed; the id is `parseInt` of the id field, category and difficulty are as typed, the tags are the trimmed non-empty comma pieces, the lesson ids are one `parseInt` per piece with NaN kept; a draft unless published; statement and solutions as gathered |
| ProblemEditor.SaveAfterLoad | js/edit-problem.js:247-305 | opening a well-formed stored problem and saving it unchanged writes back its title, tags and lesson ids, the statement and solutions as they read back, and clean statement and solution blocks exactly |
| ProblemEditor.RefLinkHasHref | js/edit-problem.js:188-190 | a reference link carries its target |
| ProblemEditor.RenderBlockPreview | js/edit-problem.js:179-194 | a block has a preview exactly when it is one of the four known types |
| ProblemEditor.PreviewTextIsEscaped | js/edit-problem.js:184 | a text block previews inside its `div`, escaped, so it holds no markup and decodes to the text |
| ProblemEditor.ProblemPreviewLinksId | js/edit-problem.js:188 | a problem reference previews as a link to that problem's page |
| ProblemEditor.LessonPreviewLinksId | js/edit-problem.js:190 | a lesson reference previews as a link to that lesson's page |
| ProblemEditor.SolutionPreviews | js/edit-problem.js:366-377 | one preview per solution editor, from the blocks save would read |
| ProblemEditor.PreviewNumbersByPosition | js/edit-problem.js:366-377 | solutions are headed by their position counted from 1 |
| ProblemEditor.TagChipShowsTag | js/edit-problem.js:351-353 | a tag chip shows the escaped tag, which holds no markup and decodes to the tag |
| ProblemEditor.Preview | js/edit-problem.js:342-377 | the preview title and category are never blank, the tags are well-formed entries, one preview per solution |
| ProblemEditor.PreviewNeverShown | js/edit-problem.js:324-339 | as written, the preview button ends in editor mode from every state and never renders the preview |
| ProblemEditor.ClickPreview | js/edit-problem.js:324-339 | the corrected handler renders the preview exactly when the preview was hidden |
| ProblemEditor.ClickPreviewToggles | js/edit-problem.js:324-339 | the corrected button opens the preview, and a second click closes it again |
| ProblemEditor.ProblemEditor.constructor | js/edit-problem.js:10 | empty statement and solutions, counter 0, editor shown |
| ProblemEditor.ProblemEditor.AddStatementBlock | js/edit-problem.js:220-231 | appends the element built as written for the new block to the statement and changes nothing else |
| ProblemEditor.ProblemEditor.AddSolutionBlock | js/edit-problem.js:149-160 | appends the element built as written to that solution only; ids stay within the counter |
| ProblemEditor.ProblemEditor.MoveStatementBlock | js/edit-problem.js:76-89 | the statement becomes `MoveChild` of itself: the same elements, reordered |
| ProblemEditor.ProblemEditor.MoveSolutionBlock | js/edit-problem.js:76-89 | only that solution's elements move, as `MoveChild` says |
| ProblemEditor.ProblemEditor.RemoveStatementBlock | js/edit-problem.js:68 | removes exactly that element; the statement may become empty |
| ProblemEditor.ProblemEditor.RemoveSolutionBlock | js/edit-problem.js:68 | removes exactly that element of that solution |
| ProblemEditor.ProblemEditor.RemoveSolution | js/edit-problem.js:162-166 | a confirmed removal drops that solution; the counter is not lowered |
| ProblemEditor.ProblemEditor.AddSolution | js/edit-problem.js:234-237 | the counter goes up by one and the new solution takes it, which exceeds every existing id |
| ProblemEditor.ProblemEditor.LoadStatement | js/edit-problem.js:256-259 | the statement holds the elements, built as written, of the blocks before the first unknown one, and loading fails exactly when there is one |
| ProblemEditor.ProblemEditor.LoadSolutions | js/edit-problem.js:262-266 | the solutions before the first failing one are loaded, and the counter is raised over each visited id, the failing one included |
| ProblemEditor.ProblemEditor.Load | js/edit-problem.js:240-272 | the form is filled; an unknown statement block stops loading before the solutions; otherwise the solutions load as `LoadSolutions` says |
| ProblemEditor.ProblemEditor.SaveProblem | js/edit-problem.js:275-305 | the payload assembled from the form and the blocks gathered from the page |
| ProblemEditor.ProblemEditor.TogglePreview | js/edit-problem.js:324-377 | the pane switches as the corrected handler says, and the preview is built only when it is opened |
| AdminProblems.StatementPreview | js/admin-problems.js:104-118 | no statement shows its placeholder; a statement without text shows "view for details"; otherwise the escaped, shortened first text |
| AdminProblems.StatementPreviewShowsText | js/admin-problems.js:109-114 | a text preview holds no markup, decodes to the shortened text and is never mistaken for a placeholder |
| AdminProblems.ParagraphIsNoPlaceholder | js/admin-problems.js:104-118 | an escaped paragraph differs from both placeholders |
| AdminProblems.Filtered | js/admin-problems.js:137-176 | exactly the problems that pass every filter, in load order |
| AdminProblems.SearchMatches | js/admin-problems.js:144-154 | the lowercased title, `String(id)` or a lowercased tag contains the term: the empty term always matches, and the written-out number finds its problem |
| AdminProblems.Keeps | js/admin-problems.js:137-174 | a kept problem passes the category, difficulty and draft selections, and empty controls keep every problem |
| AdminProblems.SearchTellsNaNFromMissing | js/admin-problems.js:147 | the id search finds a NaN id with "a" and a missing id not; "nan" never finds "NaN" |
| AdminProblems.ApplyFilters | js/admin-problems.js:137-179 | the shown list becomes `Filtered` of the loaded list, which is unchanged |
| AdminProblems.SearchFindsId | js/admin-problems.js:145-155 | searching for a problem's number finds it |
| AdminProblems.NoFiltersShowAll | js/admin-problems.js:143-176 | with every control empty, the whole list is shown in order |
| AdminProblems.Heading | js/admin-problems.js:66-77 | a card gets a heading exactly when its title is set and differs from the default, escaped so it decodes to the title |
| AdminProblems.CreateNewProblem | js/admin-problems.js:182-209 | a new draft is written under the next id, replacing whatever is stored there, and the counter moves to it; the id was free and the store stays within the counter only when it was so before |
| AdminProblems.NewProblemListed | js/admin-problems.js:194-206 | a new draft shows under "draft", not under "published", with no heading and the empty-statement placeholder (filters at lines 168-173) |
| AdminProblems.NewProblem | js/admin-problems.js:194-206 | the draft `createNewProblem` writes: its id, no title, difficulty Medium, empty lists, a draft by "admin" |
| AdminProblems.SavedEntry | js/edit-problem.js:290-308 | the problem stored after the editor's merge: title null read as "", the id stored as the number or NaN, every field the payload sets, solutions with their ids |
| AdminProblems.SaveProblemTo | js/edit-problem.js:308 | the editor writes its payload under the typed id whether or not it exists, leaves the counter alone, and an id above the counter leaves the store no longer within it |
| AdminProblems.SaveProblemRaisingCounter | js/edit-problem.js:308 | the corrected save: the same document written, and the counter raised to the id, so the store stays within the counter |
| AdminProblems.NewAfterTypedSave | js/admin-problems.js:194 | as written, a problem saved under id 1 of an empty store is replaced by the draft of the next "New Problem" |
| AdminProblems.NewAfterRaisedSave | js/admin-problems.js:188-194 | with the corrected save, "New Problem" takes id 2 and the saved problem is kept |
| AdminProblems.NewProblemOpensInEditor | js/admin-problems.js:194-212 | the editor opens a new draft under its id with difficulty Medium, and saving it keeps that id as a draft |
| AdminLessons.ContentPreview | js/admin-lessons.js:107-121 | missing or empty blocks show the placeholder; blocks without text show "view for details"; otherwise the escaped, shortened first text |
| AdminLessons.ContentPreviewShowsText | js/admin-lessons.js:112-117 | a text preview holds no markup, decodes to the shortened text and is neither placeholder |
| AdminLessons.Filtered | js/admin-lessons.js:140-174 | exactly the lessons that pass every filter, in load order |
| AdminLessons.SearchMatches | js/admin-lessons.js:146-159 | the lowercased title, `String(id)`, a lowercased tag or the lowercased category contains the term: the empty term, the written-out number and any piece of the category match |
| AdminLessons.Keeps | js/admin-lessons.js:140-174 | a kept lesson passes the category and draft selections, and empty controls keep every lesson |
| AdminLessons.ApplyFilters | js/admin-lessons.js:140-177 | the shown list becomes `Filtered` of the loaded list, which is unchanged |
| AdminLessons.SearchFindsCategory | js/admin-lessons.js:147-157 | searching for a lesson's category finds it, whatever its case and surrounding white space, since the trimmed lowercase term lies inside the lowercased category |
| AdminLessons.CreateNewLesson | js/admin-lessons.js:180-206 | a new draft is written under the next id, which was not in use, and the counter moves to it |
| AdminLessons.NewLessonListed | js/admin-lessons.js:192-203 | a new draft shows under "draft", not under "published", with the no-content placeholder |
| AdminLessons.NewLesson | js/admin-lessons.js:192-204 | the draft `createNewLesson` writes: its id, empty texts and lists, stored blocks [], a draft by "admin" |
| AdminLessons.SavedEntry | js/edit-lesson.js:162-177 | the lesson stored after the editor's `updateDoc`: every field the payload sets, the id as the number or NaN |
| AdminLessons.SaveLessonTo | js/edit-lesson.js:177 | `updateDoc` succeeds exactly when the lesson exists, never adds an id, leaves the counter alone and keeps the store within it |
| AdminLessons.StoreAfterLoad | js/edit-lesson.js:30-177 | opening a well-formed lesson and saving it with its own flag and author stores back the same entry |
| AdminLessons.NewLessonOpensEmpty | js/admin-lessons.js:192-209 | the lesson editor opens a new draft under its id with empty fields and no blocks at all |
| LessonsPage.ContentPreview | js/lessons.js:102-116 | missing or empty blocks show the placeholder; blocks without text show "view for details"; otherwise the shortened first text, unescaped |
| LessonsPage.PreviewIsUnescaped | js/lessons.js:109-113 | a text block holding the placeholder's markup previews as the placeholder itself, which the escaping admin preview never does |
| LessonsPage.Filtered | js/lessons.js:119-143 | exactly the lessons that pass the search and category, in load order |
| LessonsPage.SearchMatches | js/lessons.js:124-135 | the lowercased title, a lowercased tag or the lowercased category contains the term (the id is not searched): the empty term and any piece of the category match |
| LessonsPage.Keeps | js/lessons.js:119-142 | a kept lesson passes the category selection, and with a blank term that selection alone decides |
| LessonsPage.ApplyFilters | js/lessons.js:119-146 | the shown list becomes `Filtered` of the loaded list, which is unchanged |
| LessonsPage.BlankFiltersShowAll | js/lessons.js:123-143 | a blank search and no category show every lesson in order |
| LessonsPage.PublicMatchesAdmin | js/lessons.js:125-140 | every lesson the public search keeps is also kept by the admin search |
| LessonsPage.CardTitle | js/lessons.js:71 | a card title is never empty: the title, or the lesson number |
| LessonsPage.CardHeadingShowsTitle | js/lessons.js:71-78 | the card heading holds no markup and decodes to the title |
| ProblemsPage.LoadRecord | js/problems.js:47-59 | ids and dates are kept; each missing text field becomes "" and each missing list [] |
| ProblemsPage.LoadRecordOfStored | js/problems.js:49-58 | a document with every field present loads as exactly the record it holds |
| ProblemsPage.TotalPages | js/problems.js:117 | at least one page, the fewest pages of 50 that hold the list |
| ProblemsPage.PageItems | js/problems.js:92-93 | a page holds at most 50 items, the slice of the list at that page's position |
| ProblemsPage.PagesUpToPrefix | js/problems.js:90-93 | the first k pages read one after another are the list's prefix |
| ProblemsPage.PagesCoverList | js/problems.js:90-117 | all pages from first to last give back the whole list |
| ProblemsPage.PagesInRangeNonEmpty | js/problems.js:90-117 | every page in range shows something when the list is non-empty |
| ProblemsPage.Searched | js/problems.js:76-87 | a blank query keeps the list; otherwise exactly the matching problems, in order |
| ProblemsPage.Matches | js/problems.js:80-84 | the lowercased title, statement or space-joined tags contain the query: the empty query matches, and so does any piece of a tag |
| ProblemsPage.SearchBlankKeepsAll | js/problems.js:77-79 | the blank-query shortcut agrees with filtering by the empty query |
| ProblemsPage.Page.constructor | js/problems.js:27-28 | the loaded problems are all shown from page 1 |
| ProblemsPage.Page.RenderPage | js/problems.js:90-120 | the page's items are its slice; previous is disabled on the first page, next on the last |
| ProblemsPage.Page.Prev | js/problems.js:36 | one page back unless on the first |
| ProblemsPage.Page.Next | js/problems.js:37-40 | one page on unless on the last |
| ProblemsPage.Page.Search | js/problems.js:76-88 | the searched list, from page 1 |
| ProblemsPage.Page.Clear | js/problems.js:34 | every problem again, from page 1 |
| ProblemsPage.CardIsSafe | js/problems.js:101-106 | a card's heading and snippet hold no markup; the heading decodes to the title or its placeholder (helpers at lines 147-149) |
| ProblemsPage.Card | js/problems.js:101-106 | the escaped title or "(no title)", and the escaped tag-free statement truncated at 220 |
| ProblemsPage.MissingFieldsCard | js/problems.js:52-53 | a document without title and statement shows the placeholder heading and an empty snippet (card at lines 101-105) |
| LocalAdmin.ReadForm | js/admin.js:136-140 | texts are trimmed, the title is empty exactly when blank, tags and image URLs are well-formed entries |
| LocalAdmin.Updated | js/admin.js:149-153 | an edit replaces the five fields and sets `updatedAt`; id, `createdAt` and other fields are kept |
| LocalAdmin.FormTextsRoundTrip | js/admin.js:108-112 | trimmed texts shown in the form trim back to themselves (read at lines 137-139) |
| LocalAdmin.FormListsRoundTrip | js/admin.js:110-111 | the joined tag and image fields split back into the stored lists (read at lines 139-140) |
| LocalAdmin.ReadFormOf | js/admin.js:108-112 | the form of a well-formed problem reads back as its own fields (read at lines 136-140) |
| LocalAdmin.EditRoundTrip | js/admin.js:136-153 | opening a problem and saving the form untouched changes only `updatedAt` (form opened at lines 102-121) |
| LocalAdmin.SubmittedIsWellFormed | js/admin.js:136-162 | whatever the form holds, an edited or created problem is well formed |
| LocalAdmin.IndexOfId | js/admin.js:146 | the first position with that id, or none when no problem has it |
| LocalAdmin.WithoutId | js/admin.js:128 | exactly the problems with another id, in order |
| LocalAdmin.Merged | js/admin.js:88 | the imported problems first, then the existing ones whose id was not imported, in order |
| LocalAdmin.MergeKeepsIds | js/admin.js:88 | no id is lost by an import |
| LocalAdmin.MergeTwice | js/admin.js:88 | merging the same already-filled list a second time changes nothing more (the merge step alone) |
| LocalAdmin.Searched | js/admin.js:49-54 | exactly the problems whose text or tags contain the query, in order |
| LocalAdmin.SearchBlankShowsAll | js/admin.js:49-54 | a blank query shows every problem |
| LocalAdmin.CardIsSafe | js/admin.js:188-191 | a card's heading and snippet hold no markup and no `"`; the heading decodes to the title or its placeholder; the snippet decodes to the tag-free text when it fits in 160 characters, and otherwise to its first 159 characters and the misencoded ellipsis, 162 characters in all (helpers at lines 223-225) |
| LocalAdmin.Card | js/admin.js:188-191 | the quote-escaped title or "(no title)", and the quote-escaped tag-free statement cut by the as-written truncate at 160 |
| LocalAdmin.AdminPage.constructor | js/admin.js:39-43 | the stored list with each missing `createdAt` filled in, no editor open |
| LocalAdmin.AdminPage.OpenEditor | js/admin.js:102-121 | a blank form without an id, the problem's form for a known id, none for an unknown one; the id is remembered in every case |
| LocalAdmin.AdminPage.Submit | js/admin.js:134-169 | a blank title changes nothing; an open known id is edited in place; an open unknown id changes nothing and leaves the editor open; with no editor id a new problem is put first |
| LocalAdmin.AdminPage.Delete | js/admin.js:125-132 | a confirmed delete removes every problem with the open id and closes the editor; otherwise nothing changes |
| LocalAdmin.AdminPage.Import | js/admin.js:84-89 | a JSON array is merged in front after ids and dates are filled; anything else leaves the list |
| LocalAdmin.Filled | js/admin.js:86 | each imported problem with a missing id or date filled in |
| LocalAdmin.Fill | js/admin.js:86 | one imported problem: a missing id gets the generated one, a missing createdAt the current time |
| LocalAdmin.Created | js/admin.js:157-161 | the new problem `submit` puts first: the generated id, the form fields, createdAt now, no updatedAt |
| LocalAdmin.FilledComplete | js/admin.js:86 | after an import every imported problem has an id and a creation time |
| UsersPage.RoleBadge | js/users.js:75-78 | "Admin" for admin, "User" for user, "Pending" for every other role, with the matching class |
| UsersPage.ActionOf | js/users.js:139-152 | a `data-action` value names an action exactly when it is that action's name |
| UsersPage.Actions | js/users.js:98-117 | Approve exactly for pending users, Make Admin for non-admins, Make User for other admins, Delete for anyone but oneself, in layout order |
| UsersPage.RowOf | js/users.js:72-128 | the escaped email (or "Unknown") decodes to it, the "(You)" marker marks the signed-in user, and the badge and buttons are as above |
| UsersPage.NoButtonsOnlyForSelfAdmin | js/users.js:98-117 | a row has no button exactly when it is the signed-in admin's own |
| UsersPage.MissingRoleIsPendingWithoutApprove | js/users.js:75-107 | a profile without a role shows Pending but offers Make Admin and not Approve |
| UsersPage.Applied | js/users.js:164-196 | Approve and Make User set role "user", Make Admin sets "admin"; Approve and Make Admin set approved; nothing else changes |
| UsersPage.Performed | js/users.js:139-205 | without confirmation nothing changes; Delete removes the profile; any other action updates an existing profile with Applied and leaves a missing one alone |
| UsersPage.OfferedUpdatesChangeRole | js/users.js:98-117 | every update a row offers changes the role and the badge (updates at lines 164-196) |
| UsersPage.DemoteUndoesMakeAdmin | js/users.js:176-196 | Make User undoes Make Admin for an approved user |
| UsersPage.UserStore.constructor | js/users.js:28-33 | the profile collection as loaded, each under its uid |
| UsersPage.UserStore.Update | js/users.js:164-193 | updates the profile when it exists and fails otherwise |
| UsersPage.UserStore.Remove | js/users.js:205 | the profile is gone whether or not it existed |
| UsersPage.PerformedTouchesOnlyTarget | js/users.js:131-207 | an action changes only the profile it was clicked on, keeps each profile under its uid, and a delete removes just that one |
| UsersPage.HandleUserAction | js/users.js:131-161 | the named action is applied when confirmed; the list is reloaded in every case except an update that hits a missing profile, which fails |
| UsersPage.InsertByKey | js/users.js:36 | inserting adds exactly that user |
| UsersPage.InsertKeepsOrder | js/users.js:36 | inserting into a newest-first list keeps it newest first |
| UsersPage.InsertIsStable | js/users.js:36 | users with equal dates keep their relative order |
| UsersPage.SortNewestFirst | js/users.js:36 | the sorted list is newest first, a permutation of the loaded one, and stable among equal dates |
| UsersPage.NewestFirstIsUnique | js/users.js:36 | only one list is newest first with those users in that tie order, so the sort's result is determined |
| UsersPage.LoadUsers | js/users.js:20-39 | the loaded profiles sorted newest first, all shown |
| UsersPage.Filtered | js/users.js:210-227 | exactly the users passing the search and role filter, in sorted order |
| UsersPage.ApplyFilters | js/users.js:210-229 | the shown list becomes `Filtered` of the loaded list, which is unchanged |
| UsersPage.SearchFindsEmail | js/users.js:216-218 | searching for a user's email finds the user, whatever its case and surrounding white space |
| UsersPage.PendingFilterHidesMissingRole | js/users.js:222 | a profile without a role shows Pending but the Pending filter hides it (badge at lines 75-78) |
| Listing.ListView.constructor | js/lessons.js:30 | nothing loaded, nothing shown |
| Listing.ListView.Load | js/lessons.js:36 | the loaded list, all of it shown |
| Listing.ListView.Refine | js/admin-problems.js:143 | the shown list is exactly the loaded entries that pass, in order; the loaded list is kept |
| Listing.RefineNothing | js/lessons.js:123-143 | a filter that keeps everything shows the whole list |
| Listing.FirstText | js/admin-problems.js:109 | the content of the first text block, or none when there is no text block |
| Listing.FirstTextSkips | js/admin-problems.js:109 | non-text blocks in front do not change the preview text |
| Listing.Shorten | js/admin-problems.js:113 | text within the limit is kept; longer text is cut at the limit and "..." appended |
| Listing.ShortenBounds | js/admin-problems.js:113 | a preview is at most three characters over the limit and starts with the text's prefix |
| Listing.QueryIsSearchTerm | js/problems.js:77 | the two spellings of the search term, lowercase-then-trim and trim-then-lowercase, agree |
| Listing.NumberSearchTerm | js/admin-problems.js:147 | a written-out number is its own search term |
| Listing.DraftVisible | js/admin-problems.js:168-173 | "published" keeps non-drafts, "draft" keeps drafts, anything else keeps all |
| Listing.SelectionMatches | js/admin-problems.js:158-165 | an empty selection keeps everything; otherwise only an equal value |
| Listing.JoinHasPiece | js/problems.js:84 | the joined text contains whatever one piece contains |
| Listing.TextMatchesTag | js/problems.js:84 | a search finds a problem by any one of its tags |
| Listing.TextMatchesEmpty | js/problems.js:82-84 | an empty query matches every problem |
| Listing.NextId | js/admin-problems.js:188-191 | the next id exceeds the latest, and is 1 when there is none |
| Listing.Collection.constructor | js/admin-problems.js:185 | no documents, no latest id |
| Listing.Collection.Create | js/admin-problems.js:188-209 | writes the new document under the next id, replacing any document there, and moves the latest id to it; when every stored id was within the counter, the id was free and that stays so |
| Listing.Collection.Put | js/edit-problem.js:308 | `setDoc` with merge: the document under the key is replaced and the counter kept, so a key above the counter leaves the store no longer within it |
| Listing.Collection.PutRaisingCounter | js/edit-problem.js:308 | the corrected write: the counter is raised to the key when below it, so a store within its counter stays so |
| Listing.Collection.Update | js/edit-lesson.js:177 | `updateDoc`: fails exactly on a missing document, otherwise replaces it; the ids and the counter do not change |
| FormFields.Numbers | js/edit-lesson.js:173 | exactly the parsed numbers, NaN dropped |
| FormFields.ParseEach | js/edit-problem.js:301 | one parse per piece |
| FormFields.IdStrings | js/edit-lesson.js:35 | each id written out by `String` |
| FormFields.IdsOfPieces | js/edit-lesson.js:173 | parsing trimmed pieces and dropping NaN gives the same ids as dropping blank pieces first |
| FormFields.IdListOfTokens | js/edit-lesson.js:173 | the id list is the parsed entries of the field |
| FormFields.IntToStringIsToken | js/edit-lesson.js:35 | a written-out id is a well-formed list entry |
| FormFields.IdListOfIdField | js/edit-lesson.js:35 | a stored id list shown in its field and read back is unchanged (read at line 173) |
| FormFields.TagsOfTagField | js/edit-lesson.js:33 | a stored tag list shown in its field and read back is unchanged (read at line 167) |
| FormFields.ParseIdText | js/edit-problem.js:285 | a written-out number reads back as itself; "undefined" and "NaN" both read back as NaN (written at line 120) |
| FormFields.IdText | js/admin-problems.js:66 | `String(id)`: "undefined" when absent, "NaN" for NaN, the decimal digits of a number |
| FormFields.OfParsed | js/edit-lesson.js:163 | a saved `parseInt` result is stored as that number, or as NaN |
| FormFields.IdTextsDiffer | js/admin-problems.js:147 | a number, NaN and a missing id are written differently; "a" occurs in "NaN" and not in "undefined" |
| FormFields.IdList | js/edit-lesson.js:173 | every id is a parsed piece, and every piece that parses is kept |
| FormFields.TypedRefs | js/edit-lesson.js:173 | a field `m, x, n` splits into three entries that parse as m, NaN and n |
| FormFields.TokensOfThree | js/edit-lesson.js:173 | three entries joined by ", " split back into those entries, each parsed on its own |
| FormFields.IdListDropsNaN | js/edit-lesson.js:173 | a typed `3, x, 5` saves the problem ids 3 and 5 in order |
| Html.EscapeMarkupIsOnePass | js/problems.js:149 | the replace chain equals escaping each character once; `&` first means nothing is escaped twice |
| Html.EscapeMarkupQuotedIsOnePass | js/admin.js:225 | the same for the chain that also escapes `"` |
| Html.EscapeText | js/edit-problem.js:172-176 | the DOM escaper: `&`, U+00A0, `<` and `>` escaped, `"` kept |
| Html.EscapeMarkup | js/problems.js:149 | the replace chain for `&`, `<` and `>` |
| Html.EscapeMarkupQuoted | js/admin.js:225 | the same chain followed by `"` |
| Html.EscapedHasNoMarkup | js/problems.js:149 | escaped text holds no `<` or `>`, and no `"` when quotes are escaped |
| Html.UnescapeEscape | js/problems.js:149 | decoding the entities this escaper writes, or the DOM escaper of js/edit-problem.js lines 172-176 writes, gives the original text back |
| Html.EscapeTextKeepsQuote | js/edit-problem.js:172-176 | the DOM escaper keeps `"`, so its output is unsafe in a quoted attribute |
| Html.TakeUntil | js/edit-problem.js:39 | the prefix before the first occurrence of a character |
| Html.TakeUntilEscapeText | js/edit-problem.js:172-176 | cutting escaped text at its first `"` equals escaping the cut text (attribute at line 39) |
| Html.AttributeOfEscapeText | js/edit-problem.js:172-176 | a DOM-escaped value in a quoted attribute reads back cut at its first `"` (attribute at line 39) |
| Html.AttributeOfEscapeAttribute | js/edit-problem.js:39 | a value escaped with `"` as well reads back whole |
| Html.StripTags | js/problems.js:148 | the result is no longer than the input, holds no tag, and keeps a leading non-tag character |
| Html.StripTagsFixesTagFree | js/problems.js:148 | text without tags is left alone |
| Html.StripTagsIdempotent | js/problems.js:148 | stripping twice is stripping once |
| Html.StripTagsRemovesTag | js/problems.js:148 | a complete tag between plain text disappears with its brackets |
| Html.StripTagsRemovesUnterminated | js/problems.js:148 | a tag still open at the end is removed to the end |
| Html.Truncate | js/problems.js:147 | at most `n` characters; short text kept; longer text cut to `n - 1` characters plus an ellipsis |
| Html.TruncateMisencodedOverflows | js/admin.js:223 | as written, a shortened snippet is two characters over the limit |
| Html.TruncateMisencoded | js/admin.js:223 | the as-written truncate: short text kept, longer text cut to n - 1 characters followed by the three characters `â€¦` |
| Browser.NormalizeNewlines | js/edit-lesson.js:63 | the page text the parser hands on never holds a CR: CR LF and a lone CR become LF (markup written at line 63 and at js/edit-problem.js:27) |
| Browser.NormalizeNewlinesKeepsPlain | js/edit-lesson.js:63 | text without CR passes the normalisation unchanged |
| Browser.NormalizeNewlinesIdempotent | js/edit-lesson.js:63 | normalising twice is normalising once |
| Browser.NormalizeEscaped | js/edit-problem.js:27 | normalising escaped text equals escaping the normalised text, since the escapers leave CR and LF alone |
| Browser.StripNewlines | js/edit-lesson.js:77-78 | a text input's value holds no LF or CR and is no longer than the attribute it came from |
| Browser.StripNewlinesKeepsPlain | js/edit-lesson.js:77-78 | a value without line breaks is kept whole |
| Browser.TextareaText | js/edit-lesson.js:63 | the textarea's content is a prefix of the markup: it ends where a `</textarea` end tag begins |
| Browser.TextareaTextKeepsPlain | js/edit-lesson.js:63 | markup without `<` is all textarea content |
| Browser.DropLeadingNewline | js/edit-problem.js:27 | a first LF right after the start tag is dropped, and nothing else is |
| Browser.TextareaValueOfEscaped | js/edit-problem.js:27 | a textarea filled with escaped text returns the text with line breaks normalised and a leading LF dropped |
| Browser.TextareaValueOfPlain | js/edit-lesson.js:63 | a raw payload without `<`, `&`, CR or a leading LF comes back from the textarea unchanged |
| Browser.TextareaDropsLeadingNewline | js/edit-problem.js:27 | concrete case: the text "\nx" comes back as "x" |
| Browser.TextInputValue | js/edit-problem.js:39 | a text input's value never holds a line break |
| Browser.TextInputValueOfEscapeText | js/edit-problem.js:39 | a value escaped with the DOM escaper comes back cut at its first `"`, without line breaks |
| Browser.TextInputValueOfEscapeAttribute | js/edit-problem.js:39 | a value escaped with `"` as well comes back whole, without line breaks |
| Browser.TextInputValueOfPlain | js/edit-lesson.js:77-78 | a raw url without `"`, `&` or line breaks comes back unchanged |
| Browser.ValidFloatChars | js/edit-lesson.js:93-94 | a valid number is made only of digits, `.`, `-`, `+`, `e` and `E` |
| Browser.NumberInputValue | js/edit-lesson.js:93-94 | a number input holds either "" or a valid floating-point number |
| Browser.NumberInputValueOfFloat | js/edit-lesson.js:93-94 | a valid number written raw comes back unchanged |
| Browser.NumberInputValueOfEscapeAttribute | js/edit-lesson.js:93-94 | an escaped id comes back as its normalised text when that is a valid number, and as "" otherwise |
| Browser.NumberInputDropsText | js/edit-lesson.js:93-94 | concrete case: the id "12a" comes back as "" |
| JsStrings.Trim | js/edit-lesson.js:157 | the result has no white space at either end and is no longer than the input |
| JsStrings.TrimBlankIffAllSpace | js/edit-lesson.js:157-158 | trimming leaves nothing exactly when there was only white space |
| JsStrings.Split | js/edit-lesson.js:167 | at least one piece, and no piece holds the separator |
| JsStrings.JoinSplit | js/edit-lesson.js:167 | joining the pieces of a split gives the string back |
| JsStrings.SplitJoin | js/edit-lesson.js:167 | splitting separator-free pieces after joining them gives the pieces back |
| JsStrings.Tokens | js/edit-lesson.js:167 | every entry is non-empty, trimmed and free of the separator |
| JsStrings.TokensOfJoin | js/edit-lesson.js:167 | a list of well-formed entries joined with the separator and padding parses back to itself |
| JsStrings.IntToString | js/edit-problem.js:253 | never empty |
| JsStrings.ParseIntOfIntToString | js/edit-lesson.js:164 | `parseInt(String(n))` is n for every integer |
| JsStrings.ParseInt | js/edit-lesson.js:163 | `parseInt` without a radix: the empty string is NaN (a written-out number parses back to itself: ParseIntOfIntToString) |
| JsStrings.ParseIntBlank | js/edit-lesson.js:163 | a string of white space only is NaN |
| JsStrings.Slice | js/problems.js:93 | no longer than the input; for in-range bounds, the subsequence between them |
| SeqEdits.Swapped | js/edit-lesson.js:108 | the two elements exchanged, the others in place, a permutation |
| SeqEdits.SpliceOne | js/edit-lesson.js:114 | removes the element at the index, counted from the end when negative; nothing when past the end |
| SeqEdits.RemoveAt | js/edit-problem.js:85-87 | the list without that one element, the rest in order |
| SeqEdits.InsertAt | js/edit-problem.js:85-87 | the element at that position, the rest shifted in order |
| Fragments.JoinMappedAppend | js/edit-lesson.js:206 | the markup of two lists is the two markups in order |
| Fragments.JoinMappedSkips | js/edit-lesson.js:206 | an element that renders "" leaves the markup as if absent |
| Fragments.JoinMappedHasFragment | js/edit-lesson.js:206 | every element's fragment appears whole in the markup |
| Fragments.JoinIndexedAppend | js/edit-lesson.js:47 | indexed markup of two lists numbers the second on from the first |

## Left out

- Firestore reads and writes are not modelled. The stored documents are parameters and the
  written documents are results. The queries' `orderBy`, `where` and `limit` are not modelled.
  Neither is the race between reading and writing the `meta` counter, because it needs
  concurrency.
- The DOM is a list of values: elements, `innerHTML`, `alert`, `confirm` and navigation are not
  modelled, and confirmations are boolean parameters. MathJax typesetting is left out because it
  is a foreign library.
- `Date.now()`, `serverTimestamp()` and admin.js's `genId` are parameters, because they are
  clocks and randomness. Date formatting (`toMillis`, `formatDateNice`) and the users page's
  joined date are not modelled.
- admin.js sorts by `new Date(...)` at lines 44, 90 and 178; those sorts are not modelled.
  problems.js `applySort` is not modelled either. Both work on parsed dates.
- String lengths count code points; JavaScript counts UTF-16 units. `toLowerCase` lowercases
  ASCII letters only.
- JsStrings.ParseInt: radixes other than 10 and 16 are not modelled, and neither is the loss of
  precision for numbers beyond 2^53.
- The HTML parser's character references other than `&amp;`, `&lt;`, `&gt;`, `&quot;` and
  `&nbsp;` are not modelled, and neither is its replacement of U+0000.
- Markup after an early `</textarea>` end tag, or after a `"` inside an attribute value, is read
  by the parser as more page content or more attributes. The model keeps only the control's
  value and does not model what else that markup adds to the page.
- The problem editor's class has no typing operation: its elements hold what was built from the
  blocks, so it models saving what was loaded or added, not what a user types.
- LocalAdmin.MergeTwice: holds for the merge step alone. A second import fills missing ids afresh
  with `genId` (js/admin.js:86) and sorts again (line 90), and neither is part of the lemma.
- LocalAdmin: a problem id is a string. An imported problem whose id is a JSON number never
  equals a string id under `===` at js/admin.js:146 and 195; the model does not tell the two
  apart.
- admin.js export (`Blob`, download link) and the reading of an import file (`FileReader`,
  `JSON.parse`) are I/O. An import is given as the parsed array, or None when the file is not an
  array.
- problems.js treats a problem's `statement` as a string, as that script does, although the
  editors store blocks.
- `lesson.js`, `problem.js`, `auth.js`, `firebase.js`, `menu.js`, `main.js` and `profile.js`
  are not part of this model.
- Ids typed as non-canonical text ("050", "abc") key Firestore documents by that text; the model
  keys documents by integer, so those documents are not modelled.
- AdminLessons.SaveLessonTo: the lesson editor writes under the id in its URL; the model takes
  that key as a parameter and does not model the URL.
- LessonEditor.Preview: the tag list is kept as parsed tokens; the page renders each tag in a
  `<span class="tag">` without escaping.

## Findings

| source | as written | input that shows it | evidently intended | confidence | as-written member | corrected member |
|---|---|---|---|---|---|---|
| js/admin.js:223 | `truncate` appends the UTF-8 bytes of "…" read as three Windows-1252 characters | any text longer than the limit, e.g. 141 characters with n = 140: the snippet has 142 characters and ends in `â€¦` | append the single character U+2026, so the snippet has at most n characters | high, not executed | Html.TruncateMisencodedOverflows | Html.Truncate |
| js/edit-problem.js:324-339 | the preview handler switches to preview mode, then tests that mode and switches back | any click on the preview button, from either mode | test the mode first: open the preview from the editor and close it from the preview | high, not executed | ProblemEditor.PreviewNeverShown | ProblemEditor.ClickPreviewToggles |
| js/edit-problem.js:39-63 | attribute values at lines 39, 51 and 63 are escaped with the DOM escaper of lines 172-176, which keeps `"` | an image URL `a"b`, saved after loading, becomes `a` | escape `"` in attribute values, so every value reads back whole | medium, not executed | ProblemEditor.QuotedUrlIsCut | ProblemEditor.ClassifyCorrectedElement |
| js/edit-lesson.js:63-94 | the payloads go into the editor markup unescaped: the textarea content at line 63, the image url at line 78, the problem id at line 94 | a text block `&lt;` is saved as `<`; an image url `a"b` is saved as `a` | escape the payloads, so every block the controls keep reads back unchanged | medium, not executed | LessonEditor.EntityInTextIsDecoded | LessonEditor.ReadBackEscaped |
| js/admin-problems.js:194 | `createNewProblem` writes its draft with `setDoc` under `latestId + 1`; the problem editor saves under a typed id with `setDoc` merge (js/edit-problem.js:308) and never moves `latestId` | an empty store, the editor saves problem 1, then New Problem: the draft replaces problem 1 | a new draft gets an id no problem uses, e.g. by raising the counter when a problem is saved above it | medium, not executed | AdminProblems.NewAfterTypedSave | AdminProblems.NewAfterRaisedSave |
