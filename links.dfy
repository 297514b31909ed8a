/**
 * Resolving a retrieved source title to a Markdown link to its notebook page
 * (`convert_title_to_notebook_link` in main.py). The list of pages, which the
 * application keeps in its session state after loading the name-to-URL map,
 * is an explicit parameter.
 */
module Links {
  import opened Wrappers
  import opened Text

  /** An entry of the loaded name-to-URL map. */
  datatype LinkPage = LinkPage(name: string, url: string)

  /** `f"[{page.name}]({page.url})"`. */
  function Link(page: LinkPage): string
  {
    "[" + page.name + "](" + page.url + ")"
  }

  /** The text appended to a title for which no page was found. */
  const NotFoundSuffix := " *(URL not found)*"

  /** The suffix stripped from a title before the substring search: the three characters `xa0`. */
  const StrippedSuffix := "xa0"

  /** The index of the first page named exactly `title`, if any. */
  function FirstNamed(pages: seq<LinkPage>, title: string): (k: Option<nat>)
    ensures k.Some? ==> k.value < |pages| && pages[k.value].name == title &&
                        forall j :: 0 <= j < k.value ==> pages[j].name != title
    ensures k.None? ==> forall j :: 0 <= j < |pages| ==> pages[j].name != title
  {
    if pages == [] then None
    else if pages[0].name == title then Some(0)
    else match FirstNamed(pages[1..], title)
      case None => None
      case Some(k) => Some(k + 1)
  }

  /** The index of the first page whose name contains `needle`, if any. */
  function FirstContaining(pages: seq<LinkPage>, needle: string): (k: Option<nat>)
    ensures k.Some? ==> k.value < |pages| && Contains(pages[k.value].name, needle) &&
                        forall j :: 0 <= j < k.value ==> !Contains(pages[j].name, needle)
    ensures k.None? ==> forall j :: 0 <= j < |pages| ==> !Contains(pages[j].name, needle)
  {
    if pages == [] then None
    else if Contains(pages[0].name, needle) then Some(0)
    else match FirstContaining(pages[1..], needle)
      case None => None
      case Some(k) => Some(k + 1)
  }

  /**
   * `convert_title_to_notebook_link`: the link of the first page named
   * exactly `title`; failing that, the link of the first page whose name
   * contains `title` with a trailing `xa0` removed; failing that, the title
   * marked as not found.
   */
  function ConvertTitleToNotebookLink(notebook: seq<LinkPage>, title: string): string
  {
    match FirstNamed(notebook, title)
    case Some(k) => Link(notebook[k])
    case None =>
      match FirstContaining(notebook, RemoveSuffix(title, StrippedSuffix))
      case Some(k) => Link(notebook[k])
      case None => title + NotFoundSuffix
  }

  /**
   * The three outcomes of resolving a title: the first exact match if there is
   * one, else the first page containing the stripped title, else not found.
   */
  lemma TitleResolution(notebook: seq<LinkPage>, title: string)
    ensures (exists i :: 0 <= i < |notebook| && notebook[i].name == title) ==>
              exists i :: 0 <= i < |notebook| && notebook[i].name == title &&
                (forall j :: 0 <= j < i ==> notebook[j].name != title) &&
                ConvertTitleToNotebookLink(notebook, title) == Link(notebook[i])
    ensures (forall i :: 0 <= i < |notebook| ==> notebook[i].name != title) &&
            (exists i :: 0 <= i < |notebook| && Contains(notebook[i].name, RemoveSuffix(title, StrippedSuffix))) ==>
              exists i :: 0 <= i < |notebook| && Contains(notebook[i].name, RemoveSuffix(title, StrippedSuffix)) &&
                (forall j :: 0 <= j < i ==> !Contains(notebook[j].name, RemoveSuffix(title, StrippedSuffix))) &&
                ConvertTitleToNotebookLink(notebook, title) == Link(notebook[i])
    ensures (forall i :: 0 <= i < |notebook| ==>
               notebook[i].name != title && !Contains(notebook[i].name, RemoveSuffix(title, StrippedSuffix))) ==>
              ConvertTitleToNotebookLink(notebook, title) == title + NotFoundSuffix
  {
    match FirstNamed(notebook, title)
    case Some(k) =>
      assert notebook[k].name == title;
    case None =>
      match FirstContaining(notebook, RemoveSuffix(title, StrippedSuffix))
      case Some(k) =>
        assert Contains(notebook[k].name, RemoveSuffix(title, StrippedSuffix));
      case None =>
  }

  /**
   * An exact match wins over a substring match, even over one on a page that
   * comes earlier in the list.
   */
  lemma ExactMatchFirst(notebook: seq<LinkPage>, title: string, i: nat, j: nat)
    requires j < i < |notebook|
    requires notebook[i].name == title && Contains(notebook[j].name, RemoveSuffix(title, StrippedSuffix))
    requires forall k :: 0 <= k < i ==> notebook[k].name != title
    ensures ConvertTitleToNotebookLink(notebook, title) == Link(notebook[i])
  {
    var k := FirstNamed(notebook, title);
    assert k == Some(i);
  }

  /**
   * A title that is exactly `xa0` with no page of that name strips to the
   * empty string, which every name contains: it resolves to the first page.
   */
  lemma BareSuffixMatchesFirstPage(notebook: seq<LinkPage>)
    requires notebook != []
    requires forall i :: 0 <= i < |notebook| ==> notebook[i].name != StrippedSuffix
    ensures ConvertTitleToNotebookLink(notebook, StrippedSuffix) == Link(notebook[0])
  {
    assert RemoveSuffix(StrippedSuffix, StrippedSuffix) == "";
    assert OccursAt("", notebook[0].name, 0);
  }

  /** Only the three characters `xa0` are stripped: a title ending in a no-break space is searched for as it is. */
  lemma NoBreakSpaceKept(title: string)
    requires title != [] && title[|title| - 1] == '\U{00A0}'
    ensures RemoveSuffix(title, StrippedSuffix) == title
  {
  }
}
