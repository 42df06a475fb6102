/**
 * The project memory (`memory.json`) as a typed record. The engine reads
 * every chapter field with `.get(key, default)`, so each chapter field is an
 * `Option` and the defaults are the functions below.
 */
module Narrative {
  import opened Wrappers
  import Text

  /** One entry of `plot.outline`. */
  datatype Chapter = Chapter(
    number: Option<int>,
    title: Option<string>,
    summary: Option<string>,
    keyEvents: Option<seq<string>>,
    characterFocus: Option<seq<string>>,
    pagesEstimate: Option<int>)

  /** `chapter_info.get('number', 'N/A')` inside an f-string. */
  function NumberText(c: Chapter): string {
    match c.number
    case Some(n) => Text.IntToString(n)
    case None => "N/A"
  }

  /** `chapter_info.get('title', 'Sin Título')`. */
  function TitleText(c: Chapter): string {
    c.title.GetOr("Sin Título")
  }

  /** `chapter_info.get('pages_estimate', 10)`. */
  function PagesEstimate(c: Chapter): int {
    c.pagesEstimate.GetOr(10)
  }
}
