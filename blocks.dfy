/** Content blocks: the typed units that lesson bodies, problem statements and solutions are
    made of, stored as records with a `type` tag and one payload field. */
module Blocks {

  /** A stored block. `Other` is any record whose `type` is none of the four the site writes;
      it is kept as stored. A payload field that is absent in storage is written "". */
  datatype Block =
    | Text(content: string)
    | Image(url: string)
    | ProblemRef(problemId: string)
    | LessonRef(lessonId: string)
    | Other(tag: string)

  /** The `type` tag a block is stored under. */
  function TypeTag(b: Block): string {
    match b
    case Text(_) => "text"
    case Image(_) => "image"
    case ProblemRef(_) => "problem"
    case LessonRef(_) => "lesson"
    case Other(tag) => tag
  }

  /** Two blocks of the same variant (the `type` tag an edit must not change). */
  predicate SameKind(a: Block, b: Block) {
    (a.Text? && b.Text?) || (a.Image? && b.Image?) || (a.ProblemRef? && b.ProblemRef?)
    || (a.LessonRef? && b.LessonRef?) || (a.Other? && b.Other? && a.tag == b.tag)
  }

  const EmptyText: Block := Text("")
}
