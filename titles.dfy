/** The page-title helper `full_title` shared by the layout and the request specs. */
module Titles {

  const BaseTitle: string := "Katalog Miniatur"
  const Separator: string := " | "

  /**
   * The base title alone for an empty page title, otherwise the base title,
   * the separator and the page title.
   */
  function FullTitle(pageTitle: string): (title: string)
    ensures BaseTitle <= title
    ensures pageTitle == [] ==> title == BaseTitle
    ensures pageTitle != [] ==>
      && |title| == |BaseTitle| + |Separator| + |pageTitle|
      && title[|BaseTitle|..|BaseTitle| + |Separator|] == Separator
      && title[|title| - |pageTitle|..] == pageTitle
  {
    if pageTitle == [] then BaseTitle else BaseTitle + Separator + pageTitle
  }

  /** Reads the page title back out of a full title. */
  function PageTitle(title: string): string {
    if |title| <= |BaseTitle| + |Separator| then [] else title[|BaseTitle| + |Separator|..]
  }

  /** The page title can always be recovered from the full title. */
  lemma PageTitleOfFullTitle(pageTitle: string)
    ensures PageTitle(FullTitle(pageTitle)) == pageTitle
  {
  }

  /** Distinct page titles give distinct full titles. */
  lemma FullTitleInjective(a: string, b: string)
    requires FullTitle(a) == FullTitle(b)
    ensures a == b
  {
  }
}
