/** The lesson editor page: the list of content blocks it edits in place, the editor and
    preview markup it renders from that list, the form it fills from a stored lesson and the
    document it assembles on save. */
module LessonEditor {
  import opened Wrappers
  import opened JsStrings
  import opened Blocks
  import opened SeqEdits
  import opened FormFields
  import opened Fragments
  import opened Html
  import opened Browser

  // ---------------------------------------------------------------- blocks and their fields

  /** The block types this editor renders an input for. Lesson references and unknown types
      have none: they are kept, but can be neither seen nor edited here. */
  predicate HasField(b: Block) {
    b.Text? || b.Image? || b.ProblemRef?
  }

  /** The value of a block's input: content, url or problem id. */
  function Field(b: Block): string
    requires HasField(b)
  {
    match b
    case Text(c) => c
    case Image(u) => u
    case ProblemRef(p) => p
  }

  /** The block with the field its type owns set to `v`. */
  function WithField(b: Block, v: string): (r: Block)
    ensures SameKind(r, b)
    ensures HasField(b) ==> Field(r) == v
    ensures !HasField(b) ==> r == b
  {
    match b
    case Text(_) => Text(v)
    case Image(_) => Image(v)
    case ProblemRef(_) => ProblemRef(v)
    case _ => b
  }

  /** One `.block-textarea` or `.block-input` element of the editor: its `data-index` (as
      `parseInt` read it) and its current value. */
  datatype FieldInput = FieldInput(index: int, value: string)

  /** One step of `updateBlocksFromInputs`: an index with no block is skipped. */
  function WriteInput(bs: seq<Block>, inp: FieldInput): (r: seq<Block>)
    ensures |r| == |bs|
  {
    if 0 <= inp.index < |bs| then bs[inp.index := WithField(bs[inp.index], inp.value)] else bs
  }

  /** The blocks after every input has been written, in document order. */
  function ApplyInputs(bs: seq<Block>, inputs: seq<FieldInput>): (r: seq<Block>)
    ensures |r| == |bs|
    decreases |inputs|
  {
    if inputs == [] then bs
    else WriteInput(ApplyInputs(bs, inputs[..|inputs| - 1]), inputs[|inputs| - 1])
  }

  /** Writing inputs never changes a block's type, and never touches a lesson reference or a
      block of unknown type. */
  lemma {:induction false} ApplyInputsKeepsKinds(bs: seq<Block>, inputs: seq<FieldInput>)
    ensures forall i :: 0 <= i < |bs| ==> SameKind(ApplyInputs(bs, inputs)[i], bs[i])
    ensures forall i :: 0 <= i < |bs| && !HasField(bs[i]) ==> ApplyInputs(bs, inputs)[i] == bs[i]
    decreases |inputs|
  {
    if inputs != [] {
      ApplyInputsKeepsKinds(bs, inputs[..|inputs| - 1]);
    }
  }

  /** A block whose index no input names keeps its value. */
  lemma {:induction false} ApplyInputsUntouched(bs: seq<Block>, inputs: seq<FieldInput>, i: nat)
    requires i < |bs|
    requires forall k :: 0 <= k < |inputs| ==> inputs[k].index != i
    ensures ApplyInputs(bs, inputs)[i] == bs[i]
    decreases |inputs|
  {
    if inputs != [] {
      ApplyInputsUntouched(bs, inputs[..|inputs| - 1], i);
    }
  }

  /** The last input naming an editable block decides that block's field. */
  lemma {:induction false} ApplyInputsLastWins(bs: seq<Block>, inputs: seq<FieldInput>, k: nat)
    requires k < |inputs| && 0 <= inputs[k].index < |bs| && HasField(bs[inputs[k].index])
    requires forall j :: k < j < |inputs| ==> inputs[j].index != inputs[k].index
    ensures var i := inputs[k].index;
      HasField(ApplyInputs(bs, inputs)[i]) && Field(ApplyInputs(bs, inputs)[i]) == inputs[k].value
    decreases |inputs|
  {
    var i := inputs[k].index;
    var init := inputs[..|inputs| - 1];
    ApplyInputsKeepsKinds(bs, init);
    if k < |inputs| - 1 {
      ApplyInputsLastWins(bs, init, k);
    }
  }

  /** Inputs that show each block's own field value leave the blocks as they are: reading back
      an editor nobody typed into changes nothing. */
  lemma {:induction false} ApplyUneditedInputs(bs: seq<Block>, inputs: seq<FieldInput>)
    requires forall k :: 0 <= k < |inputs| ==>
      0 <= inputs[k].index < |bs| && HasField(bs[inputs[k].index])
      && inputs[k].value == Field(bs[inputs[k].index])
    ensures ApplyInputs(bs, inputs) == bs
    decreases |inputs|
  {
    if inputs != [] {
      ApplyUneditedInputs(bs, inputs[..|inputs| - 1]);
    }
  }

  /** Writing a sequence of inputs, then more, is writing them all in order. */
  lemma {:induction false} ApplyInputsAppend(bs: seq<Block>, a: seq<FieldInput>, b: seq<FieldInput>)
    ensures ApplyInputs(bs, a + b) == ApplyInputs(ApplyInputs(bs, a), b)
    decreases |b|
  {
    if b == [] {
      assert a + b == a;
    } else {
      assert (a + b)[..|a + b| - 1] == a + b[..|b| - 1];
      ApplyInputsAppend(bs, a, b[..|b| - 1]);
    }
  }

  /** Inputs that name only the first blocks leave a block added after them alone. */
  lemma {:induction false} ApplyInputsBefore(bs: seq<Block>, x: Block, inputs: seq<FieldInput>)
    requires forall k :: 0 <= k < |inputs| ==> inputs[k].index < |bs|
    ensures ApplyInputs(bs + [x], inputs) == ApplyInputs(bs, inputs) + [x]
    decreases |inputs|
  {
    if inputs != [] {
      ApplyInputsBefore(bs, x, inputs[..|inputs| - 1]);
    }
  }

  /** How a payload goes into the editor markup. */
  const Raw: string -> string := s => s

  /** The value the control rendered for `b` holds when its payload is written into the
      markup through `escape`: a text block's textarea, an image block's text input, a
      problem reference's number input. */
  function ControlValue(b: Block, escape: string -> string): string
    requires HasField(b)
  {
    match b
    case Text(c) => TextareaValue(escape(c))
    case Image(u) => TextInputValue(escape(u))
    case ProblemRef(p) => NumberInputValue(escape(p))
  }

  /** The inputs of the rendered editor before any typing: one per block that has a field,
      in block order, holding the value its control reads from the markup. */
  function EditorInputs(bs: seq<Block>, escape: string -> string): (r: seq<FieldInput>)
    ensures forall k :: 0 <= k < |r| ==>
      0 <= r[k].index < |bs| && HasField(bs[r[k].index])
      && r[k].value == ControlValue(bs[r[k].index], escape)
    ensures forall j, k :: 0 <= j < k < |r| ==> r[j].index < r[k].index
    decreases |bs|
  {
    if bs == [] then []
    else
      var last := |bs| - 1;
      var init := EditorInputs(bs[..last], escape);
      assert forall k :: 0 <= k < |init| ==> bs[..last][init[k].index] == bs[init[k].index];
      init + (if HasField(bs[last]) then [FieldInput(last, ControlValue(bs[last], escape))] else [])
  }

  /** A block as the editor reads it back when nobody types into it. */
  function ReadBack(b: Block, escape: string -> string): (r: Block)
    ensures SameKind(r, b)
  {
    if HasField(b) then WithField(b, ControlValue(b, escape)) else b
  }

  function ReadBackAll(bs: seq<Block>, escape: string -> string): (r: seq<Block>)
    ensures |r| == |bs| && forall i :: 0 <= i < |bs| ==> r[i] == ReadBack(bs[i], escape)
  {
    seq(|bs|, i requires 0 <= i < |bs| => ReadBack(bs[i], escape))
  }

  /** Reading back the editor nobody typed into gives each block as its control reads it,
      in order; lesson references and unknown types are untouched. */
  lemma {:induction false} RenderedInputsKeepBlocks(bs: seq<Block>, escape: string -> string)
    ensures ApplyInputs(bs, EditorInputs(bs, escape)) == ReadBackAll(bs, escape)
    decreases |bs|
  {
    if bs != [] {
      var last := |bs| - 1;
      var init, x := bs[..last], bs[last];
      var before := EditorInputs(init, escape);
      var rb := ReadBackAll(init, escape);
      var tail := if HasField(x) then [FieldInput(last, ControlValue(x, escape))] else [];
      assert ApplyInputs(bs, before) == rb + [x] by {
        assert init + [x] == bs;
        ApplyInputsBefore(init, x, before);
        RenderedInputsKeepBlocks(init, escape);
      }
      assert ApplyInputs(bs, EditorInputs(bs, escape)) == ApplyInputs(rb + [x], tail) by {
        assert EditorInputs(bs, escape) == before + tail;
        ApplyInputsAppend(bs, before, tail);
      }
      assert ApplyInputs(rb + [x], tail) == rb + [ReadBack(x, escape)] by {
        if HasField(x) {
          assert tail[..0] == [];
          assert ApplyInputs(rb + [x], tail) == WriteInput(rb + [x], tail[0]);
          assert (rb + [x])[last := ReadBack(x, escape)] == rb + [ReadBack(x, escape)];
        }
      }
      assert ReadBackAll(bs, escape) == rb + [ReadBack(x, escape)];
    }
  }

  /** A block the unescaped markup keeps: text with no `<`, `&` or CR and no leading LF, a
      url with no `"`, `&` or line break, a problem id that is "" or a valid number. */
  predicate Plain(b: Block) {
    match b
    case Text(c) => '<' !in c && '&' !in c && '\r' !in c && (c == [] || c[0] != '\n')
    case Image(u) => '"' !in u && '&' !in u && '\n' !in u && '\r' !in u
    case ProblemRef(p) => p == "" || ValidFloat(p)
    case _ => true
  }

  /** Saving an untouched editor keeps plain blocks as they are. */
  lemma ReadBackPlain(bs: seq<Block>)
    requires forall i :: 0 <= i < |bs| ==> Plain(bs[i])
    ensures ReadBackAll(bs, Raw) == bs
  {
    forall i | 0 <= i < |bs|
      ensures ReadBack(bs[i], Raw) == bs[i]
    {
      match bs[i]
      case Text(c) => TextareaValueOfPlain(c);
      case Image(u) => TextInputValueOfPlain(u);
      case ProblemRef(p) =>
        if p == "" {
          assert NumberInputValue("") == "" by {
            assert NormalizeNewlines("") == "" && QuotedAttributeValue("") == "";
          }
        } else {
          NumberInputValueOfFloat(p);
        }
      case _ =>
    }
  }

  /** A character reference in a text block is decoded on the way back: `&lt;` is saved as
      `<`. */
  lemma EntityInTextIsDecoded()
    ensures ReadBack(Text("&lt;"), Raw) == Text("<")
  {
    var m := "&lt;";
    assert TextareaValue(m) == "<" by {
      NormalizeNewlinesKeepsPlain(m);
      TextareaTextKeepsPlain(m);
      assert "&lt;" <= m && !("&amp;" <= m) && m[4..] == "";
    }
  }

  /** A `"` in an image url ends the attribute: `a"b` is saved as `a`. */
  lemma QuoteInUrlIsCut()
    ensures ReadBack(Image("a\"b"), Raw) == Image("a")
  {
    var m := "a\"b";
    NormalizeNewlinesKeepsPlain(m);
    assert TakeUntil(m, '"') == "a" by {
      assert TakeUntil("\"b", '"') == "";
    }
    UnescapeKeepsPlain("a");
    StripNewlinesKeepsPlain("a");
  }

  /** A block the controls themselves keep once the payload is escaped: text without CR
      and without a leading LF, a url without line breaks, a problem id that is "" or a
      valid number. */
  predicate Intact(b: Block) {
    match b
    case Text(c) => '\r' !in c && (c == [] || c[0] != '\n')
    case Image(u) => '\n' !in u && '\r' !in u
    case ProblemRef(p) => p == "" || ValidFloat(p)
    case _ => true
  }

  /** With every payload escaped for an attribute, saving an untouched editor keeps every
      intact block, `&`, `<` and `"` included. */
  lemma ReadBackEscaped(bs: seq<Block>)
    requires forall i :: 0 <= i < |bs| ==> Intact(bs[i])
    ensures ReadBackAll(bs, EscapeAttribute) == bs
  {
    forall i | 0 <= i < |bs|
      ensures ReadBack(bs[i], EscapeAttribute) == bs[i]
    {
      match bs[i]
      case Text(c) =>
        TextareaValueOfEscaped(c, true);
        NormalizeNewlinesKeepsPlain(c);
      case Image(u) =>
        TextInputValueOfEscapeAttribute(u);
        NormalizeNewlinesKeepsPlain(u);
        StripNewlinesKeepsPlain(u);
      case ProblemRef(p) =>
        NumberInputValueOfEscapeAttribute(p);
        if p != "" {
          ValidFloatChars(p);
          NormalizeNewlinesKeepsPlain(p);
        } else {
          assert NormalizeNewlines(p) == "";
        }
      case _ =>
    }
  }

  // ---------------------------------------------------------------- markup

  /** The move and delete buttons of the block at `index`. */
  function Controls(index: nat): string {
    var i := IntToString(index);
    "<div class=\"block-controls\">"
    + "<button onclick=\"moveBlock(" + i + ", -1)\" class=\"btn-icon\">⬆️</button>"
    + "<button onclick=\"moveBlock(" + i + ", 1)\" class=\"btn-icon\">⬇️</button>"
    + "<button onclick=\"deleteBlock(" + i + ")\" class=\"btn-icon\">\U{1F5D1}️</button>"
    + "</div>"
  }

  /** The opening of an editor block: its caption and controls. */
  function EditorHeader(caption: string, index: nat): (r: string)
    ensures r != ""
  {
    "<div class=\"block-editor\" draggable=\"true\" data-index=\"" + IntToString(index) + "\">"
    + "<div class=\"block-header\"><span>" + caption + "</span>" + Controls(index) + "</div>"
  }

  /** The caption shown in an editor block's header. */
  function Caption(b: Block): string
    requires HasField(b)
  {
    match b
    case Text(_) => "\U{1F4DD} Text Block"
    case Image(_) => "\U{1F5BC}\U{FE0F} Image Block"
    case ProblemRef(_) => "\U{1F517} Problem Reference"
  }

  /** The editing widget of a block, after its header. */
  function EditorBody(b: Block, index: nat): string
    requires HasField(b)
  {
    var i := IntToString(index);
    match b
    case Text(content) =>
      "<textarea class=\"block-textarea\" data-index=\"" + i + "\">" + content + "</textarea></div>"
    case Image(url) =>
      "<input type=\"text\" class=\"block-input\" data-index=\"" + i + "\" value=\"" + url
      + "\" placeholder=\"Image URL\" />"
      + (if url != "" then "<img src=\"" + url
           + "\" style=\"max-width:200px; margin-top:0.5rem; border-radius:6px;\" />" else "")
      + "</div>"
    case ProblemRef(id) =>
      "<input type=\"number\" class=\"block-input\" data-index=\"" + i + "\" value=\"" + id
      + "\" placeholder=\"Problem ID\" /><small>This will display a problem preview card</small></div>"
  }

  /** `renderBlockEditor(block, index)`: the block's editing widget with its controls, or ""
      for a type this editor does not edit. Payloads are inserted without escaping. */
  function RenderBlockEditor(b: Block, index: nat): (r: string)
    ensures r == "" <==> !HasField(b)
  {
    if HasField(b) then EditorHeader(Caption(b), index) + EditorBody(b, index) else ""
  }

  /** `renderContentBlocks`: one editor fragment per block, numbered from 0, in order. */
  function RenderEditor(bs: seq<Block>): string {
    JoinIndexed(bs, RenderBlockEditor, 0)
  }

  /** `renderBlockPreview(block)`: text as a paragraph, an image, or a problem card; "" for
      any other type. Nothing is escaped. */
  function RenderBlockPreview(b: Block): (r: string)
    ensures r == "" <==> !HasField(b)
  {
    match b
    case Text(content) => "<p>" + content + "</p>"
    case Image(url) =>
      "<img src=\"" + url + "\" style=\"max-width:100%; border-radius:8px; margin:1rem 0;\" />"
    case ProblemRef(id) =>
      "<div class=\"problem-preview-card\"><h4>Problem #" + id + "</h4>"
      + "<p class=\"problem-preview-category\">Preview not available in editor</p>"
      + "<a href=\"../problem.html?id=" + id + "\" class=\"btn btn-small\">View Problem →</a></div>"
    case _ => ""
  }

  /** `contentBlocks.map(renderBlockPreview).join("")`. */
  function PreviewMarkup(bs: seq<Block>): string {
    JoinMapped(bs, RenderBlockPreview)
  }

  /** A block with no preview (a lesson reference, an unknown type) leaves the preview as if
      it were not there. */
  lemma PreviewSkipsFieldless(a: seq<Block>, b: Block, c: seq<Block>)
    requires !HasField(b)
    ensures PreviewMarkup(a + [b] + c) == PreviewMarkup(a + c)
  {
    JoinMappedSkips(a, b, c, RenderBlockPreview);
  }

  /** Text content reaches the preview verbatim, markup included. */
  lemma PreviewKeepsText(content: string)
    ensures Contains(RenderBlockPreview(Text(content)), content)
  {
    assert content <= content;
    ContainsInside("<p>", content, "</p>", content);
  }

  /** What the preview pane shows. */
  datatype LessonPreview = LessonPreview(
    title: string, idLabel: string, category: string, tags: seq<string>, content: string)

  /** The preview pane: blank title and category replaced by placeholders, the tag list as
      parsed on save, and the block previews. */
  function Preview(f: LessonForm, lessonId: string, bs: seq<Block>): (p: LessonPreview)
    ensures p.title != "" && p.category != ""
    ensures f.title != "" ==> p.title == f.title
    ensures f.category != "" ==> p.category == f.category
    ensures p.tags == Tokens(f.tags, ',')
  {
    LessonPreview(
      if f.title == "" then "Untitled Lesson" else f.title,
      "#" + lessonId,
      if f.category == "" then "Uncategorized" else f.category,
      Tokens(f.tags, ','),
      PreviewMarkup(bs))
  }

  // ---------------------------------------------------------------- the form

  /** The text of the editor's form fields. */
  datatype LessonForm = LessonForm(
    id: string, title: string, category: string, tags: string, cover: string, problemRefs: string)

  /** A stored lesson as read from the database. Absent text fields are "" and absent lists
      are empty, and `blocks` is None when absent. */
  datatype LessonDoc = LessonDoc(
    id: StoredId, title: string, category: string, tags: seq<string>, cover: string,
    blocks: Option<seq<Block>>, problems: seq<int>)

  /** The form `loadLesson` fills in: a missing or zero id falls back to the id in the URL,
      tags and problem ids are shown joined by ", ". */
  function FormOf(d: LessonDoc, urlId: string): LessonForm {
    LessonForm(
      if d.id.Num? && d.id.n != 0 then IntToString(d.id.n) else urlId,
      d.title, d.category, Join(d.tags, ", "), d.cover, IdField(d.problems))
  }

  /** The blocks `loadLesson` starts from: one empty text block when none are stored, the
      stored list otherwise, even an empty one. */
  function LoadedBlocks(stored: Option<seq<Block>>): (r: seq<Block>)
    ensures stored.None? ==> r == [EmptyText]
    ensures stored.Some? ==> r == stored.value
  {
    stored.GetOr([EmptyText])
  }

  /** The document `saveLesson` writes. */
  datatype LessonPayload = LessonPayload(
    id: Option<int>, title: string, category: string, tags: seq<string>, cover: string,
    draft: bool, author: string, timestamp: int, blocks: seq<Block>, problems: seq<int>)

  /** `saveLesson`'s checks and payload: a title that is blank once trimmed is refused;
      otherwise title and cover are trimmed, tags are the non-blank trimmed pieces between
      commas, and problem references are the pieces that parse as integers. */
  function AssembleLesson(f: LessonForm, isDraft: bool, author: string, now: int, bs: seq<Block>)
    : (r: Result<LessonPayload>)
    ensures r.Err? <==> AllSpace(f.title)
    ensures r.Ok? ==> r.value.title != [] && IsTrimmed(r.value.title) && IsTrimmed(r.value.cover)
    ensures r.Ok? ==> forall i :: 0 <= i < |r.value.tags| ==> IsToken(r.value.tags[i], ',')
    ensures r.Ok? ==> r.value.blocks == bs && r.value.draft == isDraft
    ensures r.Ok? ==> r.value.title == Trim(f.title) && r.value.cover == Trim(f.cover)
    ensures r.Ok? ==> r.value.id == ParseInt(f.id) && r.value.category == f.category
    ensures r.Ok? ==> r.value.tags == Tokens(f.tags, ',') && r.value.problems == IdList(f.problemRefs)
    ensures r.Ok? ==> r.value.author == author && r.value.timestamp == now
  {
    var title := Trim(f.title);
    TrimBlankIffAllSpace(f.title);
    if title == [] then Err("Title is required!")
    else Ok(LessonPayload(ParseInt(f.id), title, f.category, Tokens(f.tags, ','), Trim(f.cover),
                          isDraft, author, now, bs, IdList(f.problemRefs)))
  }

  /** A stored id shows in the id field as itself, and reads back as itself. */
  lemma IdFieldRoundTrip(d: LessonDoc, urlId: string)
    requires d.id.Num? && d.id.n != 0
    ensures ParseInt(FormOf(d, urlId).id) == Some(d.id.n)
  {
    ParseIntOfIntToString(d.id.n);
  }

  /** Loading a well-formed lesson and saving it straight away writes back what was stored:
      its id, title, category, tags, cover and problem references. */
  lemma SaveAfterLoad(d: LessonDoc, urlId: string, isDraft: bool, author: string, now: int, bs: seq<Block>)
    requires d.id.Num? && d.id.n != 0
    requires d.title != [] && IsTrimmed(d.title) && IsTrimmed(d.cover)
    requires forall i :: 0 <= i < |d.tags| ==> IsToken(d.tags[i], ',')
    ensures AssembleLesson(FormOf(d, urlId), isDraft, author, now, bs)
         == Ok(LessonPayload(Some(d.id.n), d.title, d.category, d.tags, d.cover, isDraft, author, now, bs, d.problems))
  {
    var f := FormOf(d, urlId);
    var id, title, tags, cover, problems := ParseInt(f.id), Trim(f.title), Tokens(f.tags, ','), Trim(f.cover), IdList(f.problemRefs);
    assert title == d.title by { TrimmedFieldRoundTrip(d.title); }
    assert cover == d.cover by { TrimmedFieldRoundTrip(d.cover); }
    assert id == Some(d.id.n) by { IdFieldRoundTrip(d, urlId); }
    assert tags == d.tags by { TagsOfTagField(d.tags); }
    assert problems == d.problems by { IdListOfIdField(d.problems); }
    assert LessonPayload(id, title, f.category, tags, cover, isDraft, author, now, bs, problems)
        == LessonPayload(Some(d.id.n), d.title, d.category, d.tags, d.cover, isDraft, author, now, bs, d.problems);
  }

  // ---------------------------------------------------------------- the editor state

  /** Every input names a block that has a field. */
  predicate InputsFit(bs: seq<Block>, inputs: seq<FieldInput>) {
    forall k :: 0 <= k < |inputs| ==> 0 <= inputs[k].index < |bs| && HasField(bs[inputs[k].index])
  }

  /** The page: `contentBlocks`, the values its editor's controls hold now, and whether the
      preview pane is showing. Every handler that changes the list renders the editor again
      from the list, so the controls then hold what the blocks read back as, and whatever
      was typed since the last read-back is gone. */
  class ContentBlocks {
    var blocks: seq<Block>
    var inputs: seq<FieldInput>
    var previewing: bool
    var preview: LessonPreview

    predicate Valid()
      reads this
    {
      InputsFit(blocks, inputs)
    }

    constructor ()
      ensures blocks == [] && inputs == [] && !previewing
      ensures Valid()
    {
      blocks := [];
      inputs := [];
      previewing := false;
      preview := LessonPreview("", "", "", [], "");
    }

    /** `renderContentBlocks`: the controls are rebuilt from the blocks. */
    method Render()
      modifies this
      ensures inputs == EditorInputs(blocks, Raw)
      ensures blocks == old(blocks) && previewing == old(previewing) && preview == old(preview)
      ensures Valid()
    {
      inputs := EditorInputs(blocks, Raw);
    }

    /** `loadLesson` once the stored lesson has been read: fills the form and the blocks,
        then renders the editor. */
    method Load(d: LessonDoc, urlId: string) returns (f: LessonForm)
      modifies this
      ensures f == FormOf(d, urlId)
      ensures blocks == LoadedBlocks(d.blocks) && inputs == EditorInputs(blocks, Raw)
      ensures previewing == old(previewing) && preview == old(preview)
      ensures Valid()
    {
      f := FormOf(d, urlId);
      blocks := LoadedBlocks(d.blocks);
      Render();
    }

    /** Typing into the control the `k`th input stands for. */
    method TypeInto(k: nat, value: string)
      requires k < |inputs| && Valid()
      modifies this
      ensures inputs == old(inputs)[k := FieldInput(old(inputs)[k].index, value)]
      ensures blocks == old(blocks) && previewing == old(previewing) && preview == old(preview)
      ensures Valid()
    {
      inputs := inputs[k := FieldInput(inputs[k].index, value)];
    }

    /** `moveBlock(index, direction)`: swaps with the block `direction` places away and
        renders, or does nothing when that place is outside the list. */
    method MoveBlock(index: int, direction: int)
      requires 0 <= index < |blocks| && Valid()
      modifies this
      ensures var target := index + direction;
        if 0 <= target < |old(blocks)| then
          blocks == Swapped(old(blocks), index, target) && inputs == EditorInputs(blocks, Raw)
        else blocks == old(blocks) && inputs == old(inputs)
      ensures |blocks| == |old(blocks)| && multiset(blocks) == multiset(old(blocks))
      ensures previewing == old(previewing) && preview == old(preview)
      ensures Valid()
    {
      var target := index + direction;
      if target < 0 || target >= |blocks| {
        return;
      }
      var a, b := blocks[target], blocks[index];
      blocks := blocks[index := a];
      blocks := blocks[target := b];
      Render();
    }

    /** `deleteBlock(index)`: a one-element splice, then a single empty text block if nothing
        is left; then renders. */
    method DeleteBlock(index: int)
      modifies this
      ensures blocks == (if SpliceOne(old(blocks), index) == [] then [EmptyText]
                         else SpliceOne(old(blocks), index))
      ensures blocks != []
      ensures 0 <= index < |old(blocks)| && |old(blocks)| > 1 ==> blocks == RemoveAt(old(blocks), index)
      ensures inputs == EditorInputs(blocks, Raw)
      ensures previewing == old(previewing) && preview == old(preview)
      ensures Valid()
    {
      blocks := SpliceOne(blocks, index);
      if |blocks| == 0 {
        blocks := [EmptyText];
      }
      Render();
    }

    /** The three add buttons: an empty block of the chosen type at the end, then a
        render. */
    method AddBlock(b: Block)
      requires b == Text("") || b == Image("") || b == ProblemRef("")
      modifies this
      ensures blocks == old(blocks) + [b] && inputs == EditorInputs(blocks, Raw)
      ensures previewing == old(previewing) && preview == old(preview)
      ensures Valid()
    {
      blocks := blocks + [b];
      Render();
    }

    /** `updateBlocksFromInputs`: each input's value goes into the field of the block it
        names, in document order. The controls are not rebuilt. */
    method UpdateBlocksFromInputs()
      requires Valid()
      modifies this
      ensures blocks == ApplyInputs(old(blocks), inputs)
      ensures inputs == old(inputs) && previewing == old(previewing) && preview == old(preview)
      ensures Valid()
    {
      var k := 0;
      while k < |inputs|
        invariant 0 <= k <= |inputs|
        invariant blocks == ApplyInputs(old(blocks), inputs[..k])
        invariant inputs == old(inputs) && previewing == old(previewing) && preview == old(preview)
      {
        var inp := inputs[k];
        if 0 <= inp.index < |blocks| {
          blocks := blocks[inp.index := WithField(blocks[inp.index], inp.value)];
        }
        assert inputs[..k + 1][..k] == inputs[..k];
        k := k + 1;
      }
      assert inputs[..k] == inputs;
      ApplyInputsKeepsKinds(old(blocks), inputs);
      assert forall i :: 0 <= i < |blocks| ==> SameKind(blocks[i], old(blocks)[i]);
    }

    /** `saveLesson(isDraft)`: reads the inputs back into the blocks, then builds the document
        or refuses a blank title. */
    method SaveLesson(f: LessonForm, isDraft: bool, author: string, now: int)
      returns (r: Result<LessonPayload>)
      requires Valid()
      modifies this
      ensures blocks == ApplyInputs(old(blocks), old(inputs)) && inputs == old(inputs)
      ensures r == AssembleLesson(f, isDraft, author, now, blocks)
      ensures previewing == old(previewing) && preview == old(preview)
      ensures Valid()
    {
      UpdateBlocksFromInputs();
      r := AssembleLesson(f, isDraft, author, now, blocks);
    }

    /** The preview button: reads the inputs back, then shows the preview built from them or
        returns to the editor. */
    method TogglePreview(f: LessonForm, lessonId: string)
      requires Valid()
      modifies this
      ensures blocks == ApplyInputs(old(blocks), old(inputs)) && inputs == old(inputs)
      ensures previewing == !old(previewing)
      ensures previewing ==> preview == Preview(f, lessonId, blocks)
      ensures !previewing ==> preview == old(preview)
      ensures Valid()
    {
      UpdateBlocksFromInputs();
      if !previewing {
        preview := Preview(f, lessonId, blocks);
        previewing := true;
      } else {
        previewing := false;
      }
    }
  }

  /** Saving straight after a re-render writes the blocks as their controls read them back:
      what was typed before a move, a delete or an add is not saved. */
  lemma SaveAfterRender(bs: seq<Block>)
    ensures ApplyInputs(bs, EditorInputs(bs, Raw)) == ReadBackAll(bs, Raw)
    ensures (forall i :: 0 <= i < |bs| ==> Plain(bs[i])) ==> ApplyInputs(bs, EditorInputs(bs, Raw)) == bs
  {
    RenderedInputsKeepBlocks(bs, Raw);
    if forall i :: 0 <= i < |bs| ==> Plain(bs[i]) {
      ReadBackPlain(bs);
    }
  }
}
