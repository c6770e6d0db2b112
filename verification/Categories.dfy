/** Classification results as they are attached to turns and sessions. */
module Categories {

  datatype CategoryId =
    | Implementation | Debugging | Research | Documentation | ReviewRefactoring
    | Testing | Planning | Operations | Content | Unknown

  /** `CategoryId::as_str` */
  function NameOf(category: CategoryId): string {
    match category
    case Implementation => "implementation"
    case Debugging => "debugging"
    case Research => "research"
    case Documentation => "documentation"
    case ReviewRefactoring => "review_refactoring"
    case Testing => "testing"
    case Planning => "planning"
    case Operations => "operations"
    case Content => "content"
    case Unknown => "unknown"
  }

  datatype Status = Classified | NotConfigured | Unavailable | Failed | NoInput

  datatype Method = Rule | SemanticModel | Inherited | NoMethod

  datatype Assignment = Assignment(
    categoryId: CategoryId,
    confidence: real,
    taxonomyVersion: string,
    classifierId: string,
    status: Status)

  const TAXONOMY_VERSION := "2026-01"

  /** What a turn is labelled with as long as nothing better is known */
  function Unlabelled(classifierId: string, status: Status): Assignment {
    Assignment(Unknown, 0.0, TAXONOMY_VERSION, classifierId, status)
  }

  /** `CategoryAssignment::default` */
  function Default(): Assignment {
    Unlabelled("unavailable", Unavailable)
  }

  /** The classification part of a `TurnSnapshot` */
  datatype Verdict = Verdict(category: Assignment, via: Method, cached: bool)
}
