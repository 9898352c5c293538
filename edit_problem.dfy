/** The problem editor page. Its statement and solutions live in the page as block editor
    elements; the model keeps those elements as lists, reads blocks back out of them the way
    the page does, and assembles the stored problem on save. */
module ProblemEditor {
  import opened Wrappers
  import opened JsStrings
  import opened Blocks
  import opened SeqEdits
  import opened FormFields
  import opened Fragments
  import opened Html
  import opened Browser

  // ---------------------------------------------------------------- block elements

  /** A block editor element as the page reads it: the caption in its header and the value
      of its textarea or of its input, whichever it has. */
  datatype BlockElement = BlockElement(caption: string, textarea: Option<string>, input: Option<string>)

  /** The header captions, written as icon, type word and suffix. */
  const TextCaption: string := "\U{1F4DD} " + "Text" + " Block"
  const ImageCaption: string := "\U{1F5BC}\U{FE0F} " + "Image" + " Block"
  const ProblemCaption: string := "\U{1F517} " + "Problem" + " Reference"
  const LessonCaption: string := "\U{1F4DA} " + "Lesson" + " Reference"

  /** The four block types the editor can build an element for. */
  predicate Known(b: Block) {
    !b.Other?
  }

  /** The element built for a block whose input payload is put into the markup with
      `escape`: a text block's content goes, escaped by the DOM escaper, into a textarea, any
      other payload into the `value` attribute of an input written without a type, which
      makes it a text input. The page reads them back as `TextareaValue` and
      `TextInputValue` do. None for an unknown type: its element gets no controls, and
      attaching the control listeners throws. */
  function ElementWith(b: Block, escape: string -> string): (r: Option<BlockElement>)
    ensures r.Some? <==> Known(b)
  {
    match b
    case Text(c) => Some(BlockElement(TextCaption, Some(TextareaValue(EscapeText(c))), None))
    case Image(u) => Some(BlockElement(ImageCaption, None, Some(TextInputValue(escape(u)))))
    case ProblemRef(p) => Some(BlockElement(ProblemCaption, None, Some(TextInputValue(escape(p)))))
    case LessonRef(l) => Some(BlockElement(LessonCaption, None, Some(TextInputValue(escape(l)))))
    case Other(_) => None
  }

  /** `createBlockElement(block)` as written: input values are escaped with the DOM escaper,
      which leaves `"` as it is. */
  function CreateBlockElementAsWritten(b: Block): (r: Option<BlockElement>)
    ensures r.Some? <==> Known(b)
  {
    ElementWith(b, EscapeText)
  }

  /** `createBlockElement(block)` corrected: input values escaped for a quoted attribute. */
  function CreateBlockElement(b: Block): (r: Option<BlockElement>)
    ensures r.Some? <==> Known(b)
  {
    ElementWith(b, EscapeAttribute)
  }

  /** The element the page builds for a known block, as written. */
  function ElementOf(b: Block): BlockElement
    requires Known(b)
  {
    CreateBlockElementAsWritten(b).value
  }

  /** The block `gatherBlocksFromContainer` reads from one element: a textarea makes a text
      block; an input is typed by the caption (Image, then Problem, then Lesson); anything
      else is dropped. */
  function Classify(e: BlockElement): (r: Option<Block>)
    ensures e.textarea.Some? ==> r == Some(Text(e.textarea.value))
    ensures r.None? <==> (e.textarea.None? && (e.input.None? || !(Contains(e.caption, "Image")
                           || Contains(e.caption, "Problem") || Contains(e.caption, "Lesson"))))
    ensures r.Some? ==> !r.value.Other?
    ensures e.textarea.None? && e.input.Some? && Contains(e.caption, "Image") ==> r == Some(Image(e.input.value))
  {
    if e.textarea.Some? then Some(Text(e.textarea.value))
    else if e.input.Some? then
      if Contains(e.caption, "Image") then Some(Image(e.input.value))
      else if Contains(e.caption, "Problem") then Some(ProblemRef(e.input.value))
      else if Contains(e.caption, "Lesson") then Some(LessonRef(e.input.value))
      else None
    else None
  }

  function Present(o: Option<Block>): seq<Block> {
    if o.Some? then [o.value] else []
  }

  /** The blocks read from a container's elements, in container order. */
  function GatherBlocks(els: seq<BlockElement>): (r: seq<Block>)
    ensures |r| <= |els|
    decreases |els|
  {
    if els == [] then [] else GatherBlocks(els[..|els| - 1]) + Present(Classify(els[|els| - 1]))
  }

  /** `gatherBlocksFromContainer`: visits the elements in order and pushes what it reads. */
  method Gather(els: seq<BlockElement>) returns (bs: seq<Block>)
    ensures bs == GatherBlocks(els)
  {
    bs := [];
    var i := 0;
    while i < |els|
      invariant 0 <= i <= |els|
      invariant bs == GatherBlocks(els[..i])
    {
      var e := els[i];
      if e.textarea.Some? {
        bs := bs + [Text(e.textarea.value)];
      } else if e.input.Some? {
        var header := e.caption;
        if Contains(header, "Image") {
          bs := bs + [Image(e.input.value)];
        } else if Contains(header, "Problem") {
          bs := bs + [ProblemRef(e.input.value)];
        } else if Contains(header, "Lesson") {
          bs := bs + [LessonRef(e.input.value)];
        }
      }
      assert els[..i + 1][..i] == els[..i];
      i := i + 1;
    }
    assert els[..i] == els;
  }

  /** Gathering a concatenation gathers the parts in order. */
  lemma {:induction false} GatherAppend(a: seq<BlockElement>, b: seq<BlockElement>)
    ensures GatherBlocks(a + b) == GatherBlocks(a) + GatherBlocks(b)
    decreases |b|
  {
    if b == [] {
      assert a + b == a;
    } else {
      var init := b[..|b| - 1];
      assert (a + b)[..|a + b| - 1] == a + init;
      GatherAppend(a, init);
    }
  }

  /** The block the page reads back from the element built for `b` as written: text comes
      back newline-normalised and without a leading LF, an input's value cut at its first
      `"` and without line breaks. A block of unknown type gets no element and stays as it
      is. */
  function ReadBack(b: Block): (r: Block)
    ensures SameKind(r, b)
  {
    match b
    case Text(c) => Text(DropLeadingNewline(NormalizeNewlines(c)))
    case Image(u) => Image(StripNewlines(TakeUntil(u, '"')))
    case ProblemRef(p) => ProblemRef(StripNewlines(TakeUntil(p, '"')))
    case LessonRef(l) => LessonRef(StripNewlines(TakeUntil(l, '"')))
    case Other(_) => b
  }

  /** A block the controls themselves keep: text without CR and without a leading LF, an
      input payload without line breaks. */
  predicate Intact(b: Block) {
    match b
    case Text(c) => '\r' !in c && (c == [] || c[0] != '\n')
    case Image(u) => '\n' !in u && '\r' !in u
    case ProblemRef(p) => '\n' !in p && '\r' !in p
    case LessonRef(l) => '\n' !in l && '\r' !in l
    case Other(_) => true
  }

  /** An intact block whose input payload holds no `"` either. */
  predicate Clean(b: Block) {
    Intact(b) && (b.Image? ==> '"' !in b.url) && (b.ProblemRef? ==> '"' !in b.problemId)
    && (b.LessonRef? ==> '"' !in b.lessonId)
  }

  /** A clean block reads back as itself. */
  lemma ReadBackClean(b: Block)
    requires Clean(b)
    ensures ReadBack(b) == b
  {
    match b
    case Text(c) => NormalizeNewlinesKeepsPlain(c);
    case Image(u) => TakeUntilAbsent(u, '"'); StripNewlinesKeepsPlain(u);
    case ProblemRef(p) => TakeUntilAbsent(p, '"'); StripNewlinesKeepsPlain(p);
    case LessonRef(l) => TakeUntilAbsent(l, '"'); StripNewlinesKeepsPlain(l);
    case Other(_) =>
  }

  /** The image caption names its type. */
  lemma ImageCaptionWords()
    ensures Contains(ImageCaption, "Image")
  {
    ContainsMiddle("\U{1F5BC}\U{FE0F} ", "Image", " Block");
  }

  /** A string holding neither first character contains neither word. */
  lemma NotContainsEither(s: string, a: string, b: string)
    requires a != [] && b != [] && a[0] !in s && b[0] !in s
    ensures !Contains(s, a) && !Contains(s, b)
  {
    NotContainsFirst(s, a);
    NotContainsFirst(s, b);
  }

  /** The problem caption names its type and not the image type checked before it. */
  lemma ProblemCaptionWords()
    ensures Contains(ProblemCaption, "Problem") && !Contains(ProblemCaption, "Image")
  {
    ContainsMiddle("\U{1F517} ", "Problem", " Reference");
    NotContainsFirst(ProblemCaption, "Image");
  }

  /** The lesson caption names its type and neither type checked before it. */
  lemma LessonCaptionWords()
    ensures Contains(LessonCaption, "Lesson")
    ensures !Contains(LessonCaption, "Image") && !Contains(LessonCaption, "Problem")
  {
    ContainsMiddle("\U{1F4DA} ", "Lesson", " Reference");
    NotContainsEither(LessonCaption, "Image", "Problem");
  }

  /** The element built for a known block, as written, reads back as `ReadBack` of it. */
  lemma ClassifyElement(b: Block)
    requires Known(b)
    ensures Classify(ElementOf(b)) == Some(ReadBack(b))
  {
    ImageCaptionWords();
    ProblemCaptionWords();
    LessonCaptionWords();
    match b
    case Text(c) => TextareaValueOfEscaped(c, false);
    case Image(u) => TextInputValueOfEscapeText(u);
    case ProblemRef(p) => TextInputValueOfEscapeText(p);
    case LessonRef(l) => TextInputValueOfEscapeText(l);
  }

  /** With the corrected builder every intact block reads back as itself, quotes included. */
  lemma ClassifyCorrectedElement(b: Block)
    requires Known(b) && Intact(b)
    ensures Classify(CreateBlockElement(b).value) == Some(b)
  {
    ImageCaptionWords();
    ProblemCaptionWords();
    LessonCaptionWords();
    match b
    case Text(c) => TextareaValueOfEscaped(c, false); NormalizeNewlinesKeepsPlain(c);
    case Image(u) => TextInputValueOfEscapeAttribute(u); NormalizeNewlinesKeepsPlain(u); StripNewlinesKeepsPlain(u);
    case ProblemRef(p) => TextInputValueOfEscapeAttribute(p); NormalizeNewlinesKeepsPlain(p); StripNewlinesKeepsPlain(p);
    case LessonRef(l) => TextInputValueOfEscapeAttribute(l); NormalizeNewlinesKeepsPlain(l); StripNewlinesKeepsPlain(l);
  }

  /** An image whose url holds a quote comes back from the editor with a shorter url. */
  lemma QuotedUrlIsCut()
    ensures Classify(ElementOf(Image("a\"b"))) == Some(Image("a"))
  {
    ClassifyElement(Image("a\"b"));
    assert TakeUntil("b", '"') == "b";
    assert TakeUntil("\"b", '"') == "";
    assert TakeUntil("a\"b", '"') == "a";
    StripNewlinesKeepsPlain("a");
  }

  /** Text that starts with a line break comes back from the editor without it. */
  lemma LeadingNewlineIsLost()
    ensures Classify(ElementOf(Text("\nx"))) == Some(Text("x"))
  {
    ClassifyElement(Text("\nx"));
    NormalizeNewlinesKeepsPlain("\nx");
  }

  /** Every block of a list is known. */
  predicate AllKnown(bs: seq<Block>) {
    forall i :: 0 <= i < |bs| ==> Known(bs[i])
  }

  /** The elements of a list of known blocks, in order. */
  function ElementsOf(bs: seq<Block>): (r: seq<BlockElement>)
    requires AllKnown(bs)
    ensures |r| == |bs| && forall i :: 0 <= i < |bs| ==> r[i] == ElementOf(bs[i])
  {
    seq(|bs|, i requires 0 <= i < |bs| && AllKnown(bs) => ElementOf(bs[i]))
  }

  /** The blocks as the page reads them back from their elements. */
  function ReadBackAll(bs: seq<Block>): (r: seq<Block>)
    ensures |r| == |bs| && forall i :: 0 <= i < |bs| ==> r[i] == ReadBack(bs[i])
  {
    seq(|bs|, i requires 0 <= i < |bs| => ReadBack(bs[i]))
  }

  /** Every block of a list is clean. */
  predicate AllClean(bs: seq<Block>) {
    forall i :: 0 <= i < |bs| ==> Clean(bs[i])
  }

  /** Clean blocks read back as themselves. */
  lemma ReadBackAllClean(bs: seq<Block>)
    requires AllClean(bs)
    ensures ReadBackAll(bs) == bs
  {
    forall i | 0 <= i < |bs|
      ensures ReadBackAll(bs)[i] == bs[i]
    {
      ReadBackClean(bs[i]);
    }
  }

  /** Elements that each classify as the matching entry of `want` gather into `want`. */
  lemma {:induction false} GatherClassified(els: seq<BlockElement>, want: seq<Block>)
    requires |els| == |want|
    requires forall i :: 0 <= i < |want| ==> Classify(els[i]) == Some(want[i])
    ensures GatherBlocks(els) == want
    decreases |want|
  {
    if want != [] {
      var n := |want| - 1;
      assert forall i :: 0 <= i < n ==> els[..n][i] == els[i] && want[..n][i] == want[i];
      GatherClassified(els[..n], want[..n]);
      assert Present(Classify(els[n])) == [want[n]];
      assert want[..n] + [want[n]] == want;
    }
  }

  /** Known blocks put into elements and gathered back are the blocks as read back, in
      order, one for one. */
  lemma GatherElements(bs: seq<Block>)
    requires AllKnown(bs)
    ensures GatherBlocks(ElementsOf(bs)) == ReadBackAll(bs)
  {
    var els, want := ElementsOf(bs), ReadBackAll(bs);
    forall i | 0 <= i < |bs|
      ensures Classify(els[i]) == Some(want[i])
    {
      ClassifyElement(bs[i]);
    }
    GatherClassified(els, want);
  }

  /** Position of the first unknown block, or the length when all are known. */
  function FirstUnknown(bs: seq<Block>): (k: nat)
    ensures k <= |bs| && AllKnown(bs[..k])
    ensures k < |bs| ==> !Known(bs[k])
    decreases |bs|
  {
    if bs == [] || !Known(bs[0]) then 0
    else
      var k := 1 + FirstUnknown(bs[1..]);
      assert forall i :: 1 <= i < k ==> bs[..k][i] == bs[1..][..k - 1][i - 1];
      k
  }

  /** The elements a loop of `createBlockElement` appends before it throws at the first
      unknown block. */
  function CreateElements(bs: seq<Block>): (r: seq<BlockElement>)
    ensures |r| <= |bs|
    ensures |r| == |bs| <==> AllKnown(bs)
  {
    assert AllKnown(bs) ==> FirstUnknown(bs) == |bs|;
    assert bs[..|bs|] == bs;
    ElementsOf(bs[..FirstUnknown(bs)])
  }

  /** The elements of a list with one more known block at its end. */
  lemma ElementsOfSnoc(xs: seq<Block>, x: Block)
    requires AllKnown(xs) && Known(x)
    ensures AllKnown(xs + [x]) && ElementsOf(xs + [x]) == ElementsOf(xs) + [ElementOf(x)]
  {
    assert forall j :: 0 <= j < |xs| ==> (xs + [x])[j] == xs[j];
    assert (xs + [x])[|xs|] == x;
  }

  /** One more known block is one more element at the end. */
  lemma ElementsOfStep(bs: seq<Block>, i: nat, stop: nat)
    requires i < stop == FirstUnknown(bs)
    ensures AllKnown(bs[..i]) && AllKnown(bs[..i + 1])
    ensures ElementsOf(bs[..i + 1]) == ElementsOf(bs[..i]) + [ElementOf(bs[i])]
  {
    assert Known(bs[i]) by {
      assert bs[..stop][i] == bs[i];
    }
    assert AllKnown(bs[..i]) by {
      assert forall j :: 0 <= j < i ==> bs[..i][j] == bs[..stop][j];
    }
    assert bs[..i + 1] == bs[..i] + [bs[i]];
    ElementsOfSnoc(bs[..i], bs[i]);
  }

  // ---------------------------------------------------------------- moving and removing

  /** `moveBlock(element, direction)` on a container's children: up moves the element
      before its predecessor, down moves its successor before it; at either end nothing
      happens. */
  function MoveChild<T>(cs: seq<T>, index: nat, direction: int): (r: seq<T>)
    requires index < |cs| && (direction == -1 || direction == 1)
    ensures var target := index + direction;
      if 0 <= target < |cs| then r == Swapped(cs, index, target) else r == cs
  {
    var target := index + direction;
    if target < 0 || target >= |cs| then cs
    else if direction == -1 then InsertAt(RemoveAt(cs, index), target, cs[index])
    else InsertAt(RemoveAt(cs, target), index, cs[target])
  }

  // ---------------------------------------------------------------- solutions

  /** A stored solution. An absent id is None; absent blocks are empty. */
  datatype StoredSolution = StoredSolution(id: Option<int>, blocks: seq<Block>)

  /** A solution as `saveProblem` writes it. */
  datatype SavedSolution = SavedSolution(id: int, blocks: seq<Block>)

  /** A solution editor: the id whose `IdText` its `data-solution-id` attribute holds (absent
      when None), and
      its block elements. Every solution editor gets its attribute from a number or from a
      missing stored id, so the id stands for the attribute text. */
  datatype SolutionElement = SolutionElement(id: Option<int>, blocks: seq<BlockElement>)

  /** `parseInt(el.dataset.solutionId) || (index + 1)` on the attribute text. */
  function DatasetSolutionId(dataId: string, index: nat): (n: int)
    ensures n != 0
  {
    match ParseInt(dataId)
    case Some(v) => if v != 0 then v else index + 1
    case None => index + 1
  }

  /** The same on the id the attribute was written from. */
  function SolutionId(id: Option<int>, index: nat): (n: int)
    ensures n != 0
    ensures id.Some? && id.value != 0 ==> n == id.value
  {
    if id.Some? && id.value != 0 then id.value else index + 1
  }

  /** Reading the id from the attribute text gives the id the element stands for. */
  lemma SolutionIdOfDataId(id: Option<int>, index: nat)
    ensures DatasetSolutionId(IdText(OfField(id)), index) == SolutionId(id, index)
  {
    ParseIdText(OfField(id));
  }

  /** The solutions `saveProblem` gathers, in page order, numbered by position where their
      id is missing. */
  function GatherSolutions(sols: seq<SolutionElement>): (r: seq<SavedSolution>)
    ensures |r| == |sols|
    ensures forall i :: 0 <= i < |sols| ==>
      r[i] == SavedSolution(SolutionId(sols[i].id, i), GatherBlocks(sols[i].blocks))
    decreases |sols|
  {
    if sols == [] then []
    else
      var n := |sols| - 1;
      GatherSolutions(sols[..n]) + [SavedSolution(SolutionId(sols[n].id, n), GatherBlocks(sols[n].blocks))]
  }

  /** The gathering loop of `saveProblem`. */
  method CollectSolutions(sols: seq<SolutionElement>) returns (r: seq<SavedSolution>)
    ensures r == GatherSolutions(sols)
  {
    r := [];
    var index := 0;
    while index < |sols|
      invariant 0 <= index <= |sols|
      invariant r == GatherSolutions(sols[..index])
    {
      var solId := SolutionId(sols[index].id, index);
      var blocks := Gather(sols[index].blocks);
      r := r + [SavedSolution(solId, blocks)];
      assert sols[..index + 1][..index] == sols[..index];
      index := index + 1;
    }
    assert sols[..index] == sols;
  }

  /** A solution id not above `bound`; one that reads as NaN counts as such. */
  predicate IdAtMost(id: Option<int>, bound: int) {
    id.None? || id.value <= bound
  }

  /** The counter raised to a solution's id when that id is larger. */
  function Bump(counter: int, id: Option<int>): (c: int)
    ensures c >= counter
    ensures id.Some? ==> c >= id.value
  {
    if id.Some? && id.value > counter then id.value else counter
  }

  /** `solutionCounter` after the loading loop has visited `sols`. */
  function MaxId(counter: int, sols: seq<StoredSolution>): (c: int)
    ensures c >= counter
    ensures forall i :: 0 <= i < |sols| && sols[i].id.Some? ==> c >= sols[i].id.value
    decreases |sols|
  {
    if sols == [] then counter
    else
      var n := |sols| - 1;
      var c := MaxId(counter, sols[..n]);
      assert forall i :: 0 <= i < n ==> sols[..n][i] == sols[i];
      Bump(c, sols[n].id)
  }

  /** Position of the first stored solution holding an unknown block, or the count. */
  function FirstFailing(sols: seq<StoredSolution>): (k: nat)
    ensures k <= |sols|
    ensures forall i :: 0 <= i < k ==> AllKnown(sols[i].blocks)
    ensures k < |sols| ==> !AllKnown(sols[k].blocks)
    decreases |sols|
  {
    if sols == [] || !AllKnown(sols[0].blocks) then 0 else 1 + FirstFailing(sols[1..])
  }

  /** `renderSolutionUI` of a stored solution whose blocks are all known. */
  function SolutionOf(s: StoredSolution): SolutionElement
    requires AllKnown(s.blocks)
  {
    SolutionElement(s.id, ElementsOf(s.blocks))
  }

  /** The solution editors the loading loop appends: those before the first solution that
      fails to render. */
  function LoadedSolutions(sols: seq<StoredSolution>, k: nat): (r: seq<SolutionElement>)
    requires k <= FirstFailing(sols)
    ensures |r| == k && forall i :: 0 <= i < k ==> r[i] == SolutionOf(sols[i])
  {
    seq(k, i requires 0 <= i < k && k <= FirstFailing(sols) => SolutionOf(sols[i]))
  }

  /** One more loaded solution is one more editor at the end. */
  lemma LoadedStep(sols: seq<StoredSolution>, j: nat)
    requires j < FirstFailing(sols)
    ensures LoadedSolutions(sols, j + 1) == LoadedSolutions(sols, j) + [SolutionOf(sols[j])]
  {
    var longer, shorter := LoadedSolutions(sols, j + 1), LoadedSolutions(sols, j);
    assert forall i :: 0 <= i < j ==> longer[i] == shorter[i];
    assert longer[j] == SolutionOf(sols[j]);
  }

  /** One more visited solution bumps the counter once more. */
  lemma MaxIdStep(counter: int, sols: seq<StoredSolution>, j: nat)
    requires j < |sols|
    ensures MaxId(counter, sols[..j + 1]) == Bump(MaxId(counter, sols[..j]), sols[j].id)
  {
    assert sols[..j + 1][..j] == sols[..j];
  }

  /** Every loaded editor's id is at most any bound on the counter the loading has reached. */
  lemma LoadedWithinCounter(counter: int, sols: seq<StoredSolution>, j: nat, bound: int)
    requires j <= FirstFailing(sols) && bound >= MaxId(counter, sols[..j])
    ensures forall i :: 0 <= i < j ==> IdAtMost(LoadedSolutions(sols, j)[i].id, bound)
  {
    forall i | 0 <= i < j
      ensures IdAtMost(LoadedSolutions(sols, j)[i].id, bound)
    {
      assert sols[..j][i] == sols[i];
    }
  }

  /** The stored solutions as `saveProblem` writes them when each carries its id: the id
      kept, the blocks as read back. */
  function StoredAsSaved(sols: seq<StoredSolution>): (r: seq<SavedSolution>)
    requires forall i :: 0 <= i < |sols| ==> sols[i].id.Some?
    ensures |r| == |sols|
    ensures forall i :: 0 <= i < |sols| ==> r[i] == SavedSolution(sols[i].id.value, ReadBackAll(sols[i].blocks))
  {
    seq(|sols|, i requires 0 <= i < |sols| && sols[i].id.Some? => SavedSolution(sols[i].id.value, ReadBackAll(sols[i].blocks)))
  }

  /** One loaded solution saved straight away keeps its stored id and its blocks as read
      back. */
  lemma SaveLoadedSolution(s: StoredSolution, index: nat)
    requires AllKnown(s.blocks) && s.id.Some? && s.id.value != 0
    ensures SolutionId(SolutionOf(s).id, index) == s.id.value
    ensures GatherBlocks(SolutionOf(s).blocks) == ReadBackAll(s.blocks)
  {
    GatherElements(s.blocks);
  }

  lemma SaveLoadedAt(sols: seq<StoredSolution>, i: nat)
    requires FirstFailing(sols) == |sols| && i < |sols|
    requires sols[i].id.Some? && sols[i].id.value != 0
    ensures GatherSolutions(LoadedSolutions(sols, |sols|))[i] == SavedSolution(sols[i].id.value, ReadBackAll(sols[i].blocks))
  {
    var loaded := LoadedSolutions(sols, |sols|);
    assert loaded[i] == SolutionOf(sols[i]);
    SaveLoadedSolution(sols[i], i);
  }

  /** Loaded solutions saved straight away keep their stored ids and their blocks as read
      back. */
  lemma {:induction false} SaveLoadedSolutions(sols: seq<StoredSolution>)
    requires FirstFailing(sols) == |sols|
    requires forall i :: 0 <= i < |sols| ==> sols[i].id.Some? && sols[i].id.value != 0
    ensures GatherSolutions(LoadedSolutions(sols, |sols|)) == StoredAsSaved(sols)
  {
    forall i | 0 <= i < |sols|
      ensures GatherSolutions(LoadedSolutions(sols, |sols|))[i] == StoredAsSaved(sols)[i]
    {
      SaveLoadedAt(sols, i);
    }
  }

  // ---------------------------------------------------------------- the form

  /** The text of the editor's form fields. */
  datatype ProblemForm = ProblemForm(
    id: string, title: string, category: string, difficulty: string, tags: string, lessonRefs: string)

  /** A stored problem. Absent text fields are "", absent lists are empty; lesson ids that
      were saved as NaN are None. */
  datatype ProblemDoc = ProblemDoc(
    title: string, category: string, difficulty: string, tags: seq<string>,
    lessons: seq<Option<int>>, statement: seq<Block>, solutions: seq<StoredSolution>)

  /** `String(x)` of a stored lesson id. */
  function NumberText(x: Option<int>): string {
    if x.Some? then IntToString(x.value) else "NaN"
  }

  /** Stored lesson ids written out as `String(x)`, one per id. */
  function NumberTexts(xs: seq<Option<int>>): (r: seq<string>)
    ensures |r| == |xs|
    ensures forall i :: 0 <= i < |xs| ==> r[i] == NumberText(xs[i])
  {
    seq(|xs|, i requires 0 <= i < |xs| => NumberText(xs[i]))
  }

  /** `lessons.join(", ")`. */
  function LessonRefsField(xs: seq<Option<int>>): string {
    Join(NumberTexts(xs), ", ")
  }

  /** `value.split(",").map(x => x.trim()).filter(Boolean).map(x => parseInt(x))`: lesson ids
      in order, NaN kept. */
  function LessonRefs(s: string): (r: seq<Option<int>>)
    ensures |r| == |Tokens(s, ',')|
  {
    ParseEach(Tokens(s, ','))
  }

  /** The form the loader fills: the id from the URL, a missing difficulty as "Medium". */
  function FormOf(d: ProblemDoc, urlId: string): ProblemForm {
    ProblemForm(urlId, d.title, d.category, if d.difficulty == "" then "Medium" else d.difficulty,
                Join(d.tags, ", "), LessonRefsField(d.lessons))
  }

  lemma ParseIntNaN()
    ensures ParseInt("NaN") == None
  {
    ParseIntNoDigits("NaN");
  }

  /** A problem's lesson field typed as `"3, x, 5"` saves 3, NaN and 5: unlike the lesson
      editor's problem field, the NaN is kept. */
  lemma LessonRefsKeepNaN(s: string)
    requires s == "3, x, 5"
    ensures LessonRefs(s) == [Some(3), None, Some(5)]
  {
    assert s == IntToString(3) + ", " + "x" + ", " + IntToString(5);
    var ts := TypedRefs(s, 3, "x", 5);
  }

  /** `String(x)` parses back to `x`, NaN included. */
  lemma ParseNumberText(x: Option<int>)
    ensures ParseInt(NumberText(x)) == x
  {
    if x.Some? {
      ParseIntOfIntToString(x.value);
    } else {
      ParseIntNaN();
    }
  }

  lemma {:induction false} ParseEachNumberTexts(xs: seq<Option<int>>)
    ensures ParseEach(NumberTexts(xs)) == xs
    decreases |xs|
  {
    if xs != [] {
      assert NumberTexts(xs)[1..] == NumberTexts(xs[1..]);
      ParseEachNumberTexts(xs[1..]);
      ParseNumberText(xs[0]);
      HeadTail(xs);
    }
  }

  /** `String(x)` of a stored lesson id is a well-formed list entry. */
  lemma NumberTextIsToken(x: Option<int>)
    ensures IsToken(NumberText(x), ',')
  {
    if x.Some? {
      IntToStringIsToken(x.value);
    } else {
      assert !IsJsSpace('N') && ',' !in "NaN";
    }
  }

  /** Stored lesson ids, NaN included, shown in the field and read back are unchanged. */
  lemma LessonRefsRoundTrip(xs: seq<Option<int>>)
    ensures LessonRefs(LessonRefsField(xs)) == xs
  {
    var texts := NumberTexts(xs);
    forall i | 0 <= i < |texts|
      ensures IsToken(texts[i], ',')
    {
      NumberTextIsToken(xs[i]);
    }
    TagsOfTagField(texts);
    ParseEachNumberTexts(xs);
  }

  /** The document `saveProblem` writes (the server timestamp aside). */
  datatype ProblemPayload = ProblemPayload(
    id: Option<int>, title: Option<string>, category: string, difficulty: string, tags: seq<string>,
    statement: seq<Block>, solutions: seq<SavedSolution>, lessons: seq<Option<int>>,
    draft: bool, author: string)

  /** `saveProblem(publish)`: refused when the id field is empty; a blank title is stored as
      null; a draft unless published. */
  function AssembleProblem(f: ProblemForm, statement: seq<Block>, solutions: seq<SavedSolution>, publish: bool)
    : (r: Result<ProblemPayload>)
    ensures r.Err? <==> f.id == ""
    ensures r.Ok? ==> r.value.draft == !publish && r.value.author == "admin"
    ensures r.Ok? ==> (r.value.title.None? <==> AllSpace(f.title))
    ensures r.Ok? && r.value.title.Some? ==> r.value.title.value != [] && IsTrimmed(r.value.title.value)
    ensures r.Ok? ==> r.value.statement == statement && r.value.solutions == solutions
    ensures r.Ok? ==> r.value.title.Some? ==> r.value.title.value == Trim(f.title)
    ensures r.Ok? ==> r.value.id == ParseInt(f.id) && r.value.category == f.category
    ensures r.Ok? ==> r.value.difficulty == f.difficulty && r.value.tags == Tokens(f.tags, ',')
    ensures r.Ok? ==> r.value.lessons == LessonRefs(f.lessonRefs)
  {
    if f.id == "" then Err("Problem ID is required")
    else
      var title := Trim(f.title);
      TrimBlankIffAllSpace(f.title);
      Ok(ProblemPayload(ParseInt(f.id), if title == [] then None else Some(title), f.category,
                        f.difficulty, Tokens(f.tags, ','), statement, solutions,
                        LessonRefs(f.lessonRefs), !publish, "admin"))
  }

  /** Loading a problem whose blocks are all known and whose solutions carry non-zero ids,
      then saving it, writes back its title, tags and lesson ids, and its statement and
      solutions as the page reads them back: unchanged when their blocks are clean. */
  lemma SaveAfterLoad(d: ProblemDoc, urlId: string, publish: bool)
    requires urlId != "" && d.title != [] && IsTrimmed(d.title)
    requires forall i :: 0 <= i < |d.tags| ==> IsToken(d.tags[i], ',')
    requires AllKnown(d.statement) && FirstFailing(d.solutions) == |d.solutions|
    requires forall i :: 0 <= i < |d.solutions| ==> d.solutions[i].id.Some? && d.solutions[i].id.value != 0
    ensures var r := AssembleProblem(FormOf(d, urlId), GatherBlocks(ElementsOf(d.statement)),
                                     GatherSolutions(LoadedSolutions(d.solutions, |d.solutions|)), publish);
      r.Ok? && r.value.title == Some(d.title) && r.value.tags == d.tags && r.value.lessons == d.lessons
      && r.value.statement == ReadBackAll(d.statement)
      && r.value.solutions == StoredAsSaved(d.solutions)
      && (AllClean(d.statement) ==> r.value.statement == d.statement)
      && forall i :: 0 <= i < |d.solutions| && AllClean(d.solutions[i].blocks) ==>
           r.value.solutions[i] == SavedSolution(d.solutions[i].id.value, d.solutions[i].blocks)
  {
    var f := FormOf(d, urlId);
    var statement := GatherBlocks(ElementsOf(d.statement));
    var solutions := GatherSolutions(LoadedSolutions(d.solutions, |d.solutions|));
    assert Trim(f.title) == d.title by { TrimmedFieldRoundTrip(d.title); }
    assert Tokens(f.tags, ',') == d.tags by { TagsOfTagField(d.tags); }
    assert LessonRefs(f.lessonRefs) == d.lessons by { LessonRefsRoundTrip(d.lessons); }
    assert statement == ReadBackAll(d.statement) by { GatherElements(d.statement); }
    assert solutions == StoredAsSaved(d.solutions) by { SaveLoadedSolutions(d.solutions); }
    if AllClean(d.statement) {
      ReadBackAllClean(d.statement);
    }
    forall i | 0 <= i < |d.solutions| && AllClean(d.solutions[i].blocks)
      ensures solutions[i] == SavedSolution(d.solutions[i].id.value, d.solutions[i].blocks)
    {
      ReadBackAllClean(d.solutions[i].blocks);
    }
  }

  // ---------------------------------------------------------------- preview

  /** The link of a reference preview. */
  function RefLink(href: string, text: string): string {
    "<a href=\"" + href + ("\" class=\"ref-link\">" + text + "</a>")
  }

  /** A reference link points at its target. */
  lemma RefLinkHasHref(href: string, text: string)
    ensures Contains(RefLink(href, text), href)
  {
    ContainsMiddle("<a href=\"", href, "\" class=\"ref-link\">" + text + "</a>");
  }

  /** `renderBlockPreview(block)`: every payload is escaped with the DOM escaper; a missing
      block or an unknown type gives "". */
  function RenderBlockPreview(b: Option<Block>): (r: string)
    ensures r == "" <==> b.None? || !Known(b.value)
  {
    if b.None? then ""
    else match b.value
      case Text(c) => "<div class=\"block-text\">" + EscapeText(c) + "</div>"
      case Image(u) =>
        "<div class=\"block-image\"><img src=\"" + EscapeText(u)
        + "\" style=\"max-width:100%; border-radius: 8px; margin: 1rem 0;\" /></div>"
      case ProblemRef(p) =>
        "<div class=\"ref-block\"><strong>\U{1F4DD} Related Problem:</strong> "
        + RefLink("../problem.html?id=" + EscapeText(p), "Problem #" + EscapeText(p)) + "</div>"
      case LessonRef(l) =>
        "<div class=\"ref-block\"><strong>\U{1F4DA} Related Lesson:</strong> "
        + RefLink("../lesson.html?id=" + EscapeText(l), "Lesson #" + EscapeText(l)) + "</div>"
      case Other(_) => ""
  }

  function PreviewOf(b: Block): string {
    RenderBlockPreview(Some(b))
  }

  /** A text block previews as its content escaped: no `<` or `>` of the content survives,
      and decoding gives the content back. */
  lemma PreviewTextIsEscaped(c: string)
    ensures var e := EscapeText(c);
      PreviewOf(Text(c)) == "<div class=\"block-text\">" + e + "</div>"
      && '<' !in e && '>' !in e && Unescape(e) == c
  {
    EscapedHasNoMarkup(c, true, false);
    UnescapeEscape(c, true, false);
  }

  /** A problem reference previews as a link to that problem's page, the id escaped. */
  lemma ProblemPreviewLinksId(id: string)
    ensures Contains(PreviewOf(ProblemRef(id)), "../problem.html?id=" + EscapeText(id))
  {
    var href := "../problem.html?id=" + EscapeText(id);
    RefLinkHasHref(href, "Problem #" + EscapeText(id));
    ContainsInside("<div class=\"ref-block\"><strong>\U{1F4DD} Related Problem:</strong> ",
                   RefLink(href, "Problem #" + EscapeText(id)), "</div>", href);
  }

  /** A lesson reference previews as a link to that lesson's page, the id escaped. */
  lemma LessonPreviewLinksId(id: string)
    ensures Contains(PreviewOf(LessonRef(id)), "../lesson.html?id=" + EscapeText(id))
  {
    var href := "../lesson.html?id=" + EscapeText(id);
    RefLinkHasHref(href, "Lesson #" + EscapeText(id));
    ContainsInside("<div class=\"ref-block\"><strong>\U{1F4DA} Related Lesson:</strong> ",
                   RefLink(href, "Lesson #" + EscapeText(id)), "</div>", href);
  }

  /** The heading of the solution at `index`: its position counted from 1. */
  function SolutionHeading(index: nat): string {
    "<h3>Solution " + IntToString(index + 1) + "</h3>"
  }

  /** One solution of the preview. */
  function SolutionPreview(index: nat, blocks: seq<Block>): string {
    "<div class=\"solution-block\">" + SolutionHeading(index) + (JoinMapped(blocks, PreviewOf) + "</div>")
  }

  /** The solutions of the preview, in page order. */
  function SolutionPreviews(sols: seq<SolutionElement>): (r: seq<string>)
    ensures |r| == |sols|
    ensures forall i :: 0 <= i < |sols| ==> r[i] == SolutionPreview(i, GatherBlocks(sols[i].blocks))
  {
    seq(|sols|, i requires 0 <= i < |sols| => SolutionPreview(i, GatherBlocks(sols[i].blocks)))
  }

  /** The preview numbers solutions by position, whatever ids they carry. */
  lemma PreviewNumbersByPosition(sols: seq<SolutionElement>, i: nat)
    requires i < |sols|
    ensures Contains(SolutionPreviews(sols)[i], "<h3>Solution " + IntToString(i + 1) + "</h3>")
  {
    ContainsMiddle("<div class=\"solution-block\">", SolutionHeading(i),
                   JoinMapped(GatherBlocks(sols[i].blocks), PreviewOf) + "</div>");
  }

  /** A tag chip of the preview: the tag escaped. */
  function TagChip(t: string): string {
    "<span class=\"tag\">" + EscapeText(t) + "</span>"
  }

  /** A chip shows its tag escaped, so a tag cannot open markup. */
  lemma TagChipShowsTag(t: string)
    ensures Contains(TagChip(t), EscapeText(t))
    ensures '<' !in EscapeText(t) && Unescape(EscapeText(t)) == t
  {
    ContainsMiddle("<span class=\"tag\">", EscapeText(t), "</span>");
    EscapedHasNoMarkup(t, true, false);
    UnescapeEscape(t, true, false);
  }

  /** What the preview pane shows; each tag is rendered as its `TagChip`. */
  datatype ProblemPreview = ProblemPreview(
    title: string, idLabel: string, category: string, difficulty: string, tags: seq<string>,
    statement: string, solutions: seq<string>)

  /** The preview pane built from the form and the page's elements: a blank title shows as
      the problem number, a blank category as "General"; tags as parsed on save; the
      statement and the solutions as gathered on save. */
  function Preview(f: ProblemForm, statement: seq<BlockElement>, sols: seq<SolutionElement>): (p: ProblemPreview)
    ensures p.title != "" && p.category != ""
    ensures f.title != "" ==> p.title == f.title
    ensures f.category != "" ==> p.category == f.category
    ensures forall i :: 0 <= i < |p.tags| ==> IsToken(p.tags[i], ',')
    ensures |p.solutions| == |sols|
  {
    ProblemPreview(
      if f.title == "" then "Problem #" + f.id else f.title,
      "#" + f.id,
      if f.category == "" then "General" else f.category,
      f.difficulty,
      Tokens(f.tags, ','),
      JoinMapped(GatherBlocks(statement), PreviewOf),
      SolutionPreviews(sols))
  }

  // ---------------------------------------------------------------- the preview button

  /** Which of the editor form and the preview pane is shown, and the button's text. */
  datatype PaneState = PaneState(editorShown: bool, previewShown: bool, button: string)

  const EditLabel: string := "\U{270F}\U{FE0F} Edit"
  const PreviewLabel: string := "\U{1F441}\U{FE0F} Preview"
  const Editing: PaneState := PaneState(true, false, PreviewLabel)
  const Previewing: PaneState := PaneState(false, true, EditLabel)

  /** The preview button's handler as written: it shows the preview, then finds itself in
      preview mode and switches back to the editor. The result is the final state and
      whether the preview gets rendered. */
  function ClickPreviewAsWritten(s: PaneState): (PaneState, bool) {
    var shown := PaneState(false, true, EditLabel);
    if shown.previewShown && shown.button == EditLabel then (PaneState(true, false, PreviewLabel), false)
    else (shown, true)
  }

  /** As written, the button never shows a preview, from any state. */
  lemma PreviewNeverShown(s: PaneState)
    ensures ClickPreviewAsWritten(s) == (Editing, false)
  {
  }

  /** The handler as evidently meant: test the mode first, then switch. */
  function ClickPreview(s: PaneState): (r: (PaneState, bool))
    ensures r.1 <==> !s.previewShown
  {
    if s.previewShown then (Editing, false) else (Previewing, true)
  }

  /** From the editor the button renders and shows the preview; a second click returns to
      the editor. */
  lemma ClickPreviewToggles()
    ensures ClickPreview(Editing) == (Previewing, true)
    ensures ClickPreview(ClickPreview(Editing).0) == (Editing, false)
  {
  }

  // ---------------------------------------------------------------- the editor state

  /** The page: statement elements, solution editors, `solutionCounter`, and the panes. */
  class ProblemEditor {
    var statement: seq<BlockElement>
    var solutions: seq<SolutionElement>
    var solutionCounter: int
    var pane: PaneState
    var preview: ProblemPreview

    /** Every solution id on the page is at most `solutionCounter`. */
    predicate Valid()
      reads this
    {
      forall i :: 0 <= i < |solutions| ==> IdAtMost(solutions[i].id, solutionCounter)
    }

    constructor ()
      ensures statement == [] && solutions == [] && solutionCounter == 0 && pane == Editing
      ensures Valid()
    {
      statement := [];
      solutions := [];
      solutionCounter := 0;
      pane := Editing;
      preview := ProblemPreview("", "", "", "", [], "", []);
    }

    /** The statement's add buttons: one empty block of the chosen type at the end. */
    method AddStatementBlock(b: Block)
      requires b == Text("") || b == Image("") || b == ProblemRef("") || b == LessonRef("")
      modifies this
      ensures statement == old(statement) + [ElementOf(b)]
      ensures solutions == old(solutions) && solutionCounter == old(solutionCounter)
      ensures pane == old(pane) && preview == old(preview)
    {
      statement := statement + [ElementOf(b)];
    }

    /** A solution's add buttons. */
    method AddSolutionBlock(s: nat, b: Block)
      requires s < |solutions|
      requires b == Text("") || b == Image("") || b == ProblemRef("") || b == LessonRef("")
      requires Valid()
      modifies this
      ensures solutions == old(solutions)[s := SolutionElement(old(solutions)[s].id, old(solutions)[s].blocks + [ElementOf(b)])]
      ensures statement == old(statement) && solutionCounter == old(solutionCounter)
      ensures pane == old(pane) && preview == old(preview)
      ensures Valid()
    {
      solutions := solutions[s := SolutionElement(solutions[s].id, solutions[s].blocks + [ElementOf(b)])];
    }

    /** A statement block's up and down buttons. */
    method MoveStatementBlock(index: nat, direction: int)
      requires index < |statement| && (direction == -1 || direction == 1)
      modifies this
      ensures statement == MoveChild(old(statement), index, direction)
      ensures multiset(statement) == multiset(old(statement))
      ensures solutions == old(solutions) && solutionCounter == old(solutionCounter)
      ensures pane == old(pane) && preview == old(preview)
    {
      statement := MoveChild(statement, index, direction);
    }

    /** A solution block's up and down buttons. */
    method MoveSolutionBlock(s: nat, index: nat, direction: int)
      requires s < |solutions| && index < |solutions[s].blocks| && (direction == -1 || direction == 1)
      requires Valid()
      modifies this
      ensures solutions == old(solutions)[s := SolutionElement(old(solutions)[s].id,
                                                  MoveChild(old(solutions)[s].blocks, index, direction))]
      ensures statement == old(statement) && solutionCounter == old(solutionCounter)
      ensures pane == old(pane) && preview == old(preview)
      ensures Valid()
    {
      solutions := solutions[s := SolutionElement(solutions[s].id, MoveChild(solutions[s].blocks, index, direction))];
    }

    /** A statement block's remove button: the statement may become empty. */
    method RemoveStatementBlock(index: nat)
      requires index < |statement|
      modifies this
      ensures statement == RemoveAt(old(statement), index)
      ensures solutions == old(solutions) && solutionCounter == old(solutionCounter)
      ensures pane == old(pane) && preview == old(preview)
    {
      statement := RemoveAt(statement, index);
    }

    /** A solution block's remove button. */
    method RemoveSolutionBlock(s: nat, index: nat)
      requires s < |solutions| && index < |solutions[s].blocks|
      requires Valid()
      modifies this
      ensures solutions == old(solutions)[s := SolutionElement(old(solutions)[s].id,
                                                  RemoveAt(old(solutions)[s].blocks, index))]
      ensures statement == old(statement) && solutionCounter == old(solutionCounter)
      ensures pane == old(pane) && preview == old(preview)
      ensures Valid()
    {
      solutions := solutions[s := SolutionElement(solutions[s].id, RemoveAt(solutions[s].blocks, index))];
    }

    /** "Remove Solution", once confirmed. The counter is not lowered. */
    method RemoveSolution(s: nat, confirmed: bool)
      requires s < |solutions|
      requires Valid()
      modifies this
      ensures solutions == if confirmed then RemoveAt(old(solutions), s) else old(solutions)
      ensures statement == old(statement) && solutionCounter == old(solutionCounter)
      ensures pane == old(pane) && preview == old(preview)
      ensures Valid()
    {
      if confirmed {
        solutions := RemoveAt(solutions, s);
      }
    }

    /** "Add solution": the counter goes up first and the new solution takes its value, so
        it is above every id already on the page. */
    method AddSolution()
      requires Valid()
      modifies this
      ensures solutionCounter == old(solutionCounter) + 1
      ensures solutions == old(solutions) + [SolutionElement(Some(solutionCounter), [])]
      ensures forall i :: 0 <= i < |old(solutions)| ==> IdAtMost(old(solutions)[i].id, solutionCounter - 1)
      ensures statement == old(statement) && pane == old(pane) && preview == old(preview)
      ensures Valid()
    {
      solutionCounter := solutionCounter + 1;
      solutions := solutions + [SolutionElement(Some(solutionCounter), [])];
    }

    /** The statement part of loading: the elements are rebuilt one block at a time; an
        unknown block type throws after the elements before it were appended. */
    method LoadStatement(bs: seq<Block>) returns (failed: bool)
      modifies this
      ensures statement == CreateElements(bs)
      ensures failed <==> !AllKnown(bs)
      ensures solutions == old(solutions) && solutionCounter == old(solutionCounter)
      ensures pane == old(pane) && preview == old(preview)
    {
      var stop := FirstUnknown(bs);
      statement := [];
      var i := 0;
      while i < |bs|
        invariant 0 <= i <= stop
        invariant statement == ElementsOf(bs[..i])
        invariant solutions == old(solutions) && solutionCounter == old(solutionCounter)
        invariant pane == old(pane) && preview == old(preview)
      {
        if !Known(bs[i]) {
          assert i == stop;
          assert |CreateElements(bs)| < |bs|;
          return true;
        }
        ElementsOfStep(bs, i, stop);
        statement := statement + [ElementOf(bs[i])];
        i := i + 1;
      }
      assert bs[..i] == bs;
      assert i == stop;
      return false;
    }

    /** The solutions part of loading: each stored solution first raises the counter to its
        id, then gets an editor; a solution with an unknown block type throws there. */
    method LoadSolutions(sols: seq<StoredSolution>) returns (failed: bool)
      modifies this
      ensures var k := FirstFailing(sols);
        (failed <==> k < |sols|)
        && solutions == LoadedSolutions(sols, k)
        && solutionCounter == MaxId(old(solutionCounter), sols[..if k < |sols| then k + 1 else k])
      ensures statement == old(statement) && pane == old(pane) && preview == old(preview)
      ensures Valid()
    {
      var last := FirstFailing(sols);
      var start := solutionCounter;
      solutions := [];
      var j := 0;
      while j < |sols|
        invariant 0 <= j <= last
        invariant solutions == LoadedSolutions(sols, j)
        invariant solutionCounter == MaxId(start, sols[..j])
        invariant statement == old(statement) && pane == old(pane) && preview == old(preview)
      {
        var sol := sols[j];
        MaxIdStep(start, sols, j);
        if sol.id.Some? && sol.id.value > solutionCounter {
          solutionCounter := sol.id.value;
        }
        if !AllKnown(sol.blocks) {
          LoadedWithinCounter(start, sols, j, solutionCounter);
          return true;
        }
        LoadedStep(sols, j);
        solutions := solutions + [SolutionOf(sol)];
        j := j + 1;
      }
      assert sols[..j] == sols;
      LoadedWithinCounter(start, sols, j, solutionCounter);
      return false;
    }

    /** Loading a stored problem: the form is filled, the statement elements are rebuilt,
        then the solution editors. An unknown block type throws and ends the loading where it
        is: `failed`. */
    method Load(d: ProblemDoc, urlId: string) returns (f: ProblemForm, failed: bool)
      requires Valid()
      modifies this
      ensures f == FormOf(d, urlId)
      ensures statement == CreateElements(d.statement)
      ensures !AllKnown(d.statement) ==>
        failed && solutions == old(solutions) && solutionCounter == old(solutionCounter)
      ensures AllKnown(d.statement) ==>
        var k := FirstFailing(d.solutions);
        (failed <==> k < |d.solutions|)
        && solutions == LoadedSolutions(d.solutions, k)
        && solutionCounter == MaxId(old(solutionCounter), d.solutions[..if k < |d.solutions| then k + 1 else k])
      ensures pane == old(pane) && preview == old(preview)
      ensures Valid()
    {
      f := FormOf(d, urlId);
      failed := LoadStatement(d.statement);
      if !failed {
        failed := LoadSolutions(d.solutions);
      }
    }

    /** `saveProblem(publish)`: gathers the statement and the solutions from the page and
        builds the document, or refuses an empty id. */
    method SaveProblem(f: ProblemForm, publish: bool) returns (r: Result<ProblemPayload>)
      ensures r == AssembleProblem(f, GatherBlocks(statement), GatherSolutions(solutions), publish)
    {
      if f.id == "" {
        return Err("Problem ID is required");
      }
      var sols := CollectSolutions(solutions);
      var st := Gather(statement);
      r := AssembleProblem(f, st, sols, publish);
    }

    /** The preview button, with the mode tested before it is switched: from the editor it
        renders the preview and shows it; from the preview it returns to the editor. */
    method TogglePreview(f: ProblemForm)
      modifies this
      ensures pane == ClickPreview(old(pane)).0
      ensures !old(pane).previewShown ==> preview == Preview(f, statement, solutions)
      ensures old(pane).previewShown ==> preview == old(preview)
      ensures statement == old(statement) && solutions == old(solutions)
      ensures solutionCounter == old(solutionCounter)
    {
      if !pane.previewShown {
        preview := Preview(f, statement, solutions);
        pane := Previewing;
      } else {
        pane := Editing;
      }
    }
  }
}
