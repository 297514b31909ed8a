/**
 * The notebook side of the pipeline (documents.py): collecting the pages of one
 * OneNote notebook from the paginated Microsoft Graph listing, and turning each
 * collected page into an upload of `./documents/<name>.html` to the corpus.
 *
 * The HTTP traffic is replaced by its results: the k-th listing request made
 * returns `responses[k]`, already decoded from JSON, and `contentOf(id)` is the
 * HTML body downloaded from `https://graph.microsoft.com/v1.0/me/onenote/pages/<id>/content`.
 */
module Documents {
  import opened Wrappers
  import opened Text

  /** A collected page: display name, Graph id, OneNote web link and (optionally) HTML body. */
  datatype Page = Page(name: string, id: string, url: string, html: string)

  /**
   * One element of a listing response's `value` array, with the fields the
   * loop reads: `id`, `title`, `parentNotebook.id`, `parentSection.displayName`
   * and `links.oneNoteWebUrl.href`.
   */
  datatype Entry = Entry(id: string, title: string, notebookId: string, sectionName: string, webUrl: string)

  /** A decoded listing response: its `value` array, if present, and its `@odata.nextLink`, if present. */
  datatype Response = Response(value: Option<seq<Entry>>, nextLink: Option<string>)

  /** Why the collection loop ended. */
  datatype Stop =
    | EmptyResponse   // a response without `value`
    | LastPage        // a response without `@odata.nextLink`
    | OutOfResponses  // the model was given no further response to the next request

  /**
   * A URL the loop requests: the first listing query, for the pages of the
   * configured notebook, or a next link taken from a response. The first
   * query asks `/me/onenote/pages` for every page's `id`, `title`, `links`,
   * its notebook (expanded to its id, filtered by `notebookId`) and its
   * section (expanded to its display name).
   */
  datatype Url = PagesQuery(notebookId: string) | NextLink(href: string)

  /** `"<section> - <title>"` with every `/` replaced by `-`. */
  function PageName(sectionName: string, title: string): string
  {
    ReplaceChar(sectionName + " - " + title, '/', '-')
  }

  /** A page name never contains `/`, whatever the section and title, and keeps their length plus the separator. */
  lemma PageNameShape(sectionName: string, title: string)
    ensures '/' !in PageName(sectionName, title)
    ensures |PageName(sectionName, title)| == |sectionName| + 3 + |title|
  {
  }

  /** The page record built for an entry of the configured notebook. */
  function PageOf(e: Entry, getHtml: bool, contentOf: string -> string): Page
  {
    Page(PageName(e.sectionName, e.title), e.id, e.webUrl, if getHtml then contentOf(e.id) else "")
  }

  /**
   * The pages the loop appends for the entries `es`, in order: one per entry
   * whose parent notebook is `notebookId`, none for the others.
   */
  function PagesOf(es: seq<Entry>, notebookId: string, getHtml: bool, contentOf: string -> string): seq<Page>
  {
    if es == [] then []
    else
      var e := es[|es| - 1];
      PagesOf(es[..|es| - 1], notebookId, getHtml, contentOf)
      + (if e.notebookId == notebookId then [PageOf(e, getHtml, contentOf)] else [])
  }

  /** All entries of the responses `rs`, response after response; a response without `value` adds none. */
  function EntriesOf(rs: seq<Response>): seq<Entry>
  {
    if rs == [] then []
    else
      var r := rs[|rs| - 1];
      EntriesOf(rs[..|rs| - 1]) + (if r.value.Some? then r.value.value else [])
  }

  /** The entries of one more response follow those of the earlier ones. */
  lemma EntriesOfSnoc(rs: seq<Response>, r: Response)
    ensures EntriesOf(rs + [r]) == EntriesOf(rs) + (if r.value.Some? then r.value.value else [])
  {
    assert (rs + [r])[..|rs|] == rs;
  }

  /**
   * Pages keep the order of their entries: the pages of `a + b` are those of
   * `a` followed by those of `b`.
   */
  lemma {:induction false} PagesOfAppend(a: seq<Entry>, b: seq<Entry>, notebookId: string, getHtml: bool, contentOf: string -> string)
    ensures PagesOf(a + b, notebookId, getHtml, contentOf)
         == PagesOf(a, notebookId, getHtml, contentOf) + PagesOf(b, notebookId, getHtml, contentOf)
  {
    if b == [] {
      assert a + b == a;
    } else {
      var b' := b[..|b| - 1];
      assert (a + b)[..|a + b| - 1] == a + b';
      assert (a + b)[|a + b| - 1] == b[|b| - 1];
      PagesOfAppend(a, b', notebookId, getHtml, contentOf);
    }
  }

  /**
   * The body of the loop over one response's `value`: skip the entries of
   * other notebooks and append a page for each of the others, in order.
   */
  method AppendPages(notebook: seq<Page>, entries: seq<Entry>, notebookId: string, getHtml: bool, contentOf: string -> string)
    returns (extended: seq<Page>)
    ensures extended == notebook + PagesOf(entries, notebookId, getHtml, contentOf)
  {
    extended := notebook;
    for i := 0 to |entries|
      invariant extended == notebook + PagesOf(entries[..i], notebookId, getHtml, contentOf)
    {
      var page := entries[i];
      assert entries[..i + 1] == entries[..i] + [page];
      assert (entries[..i] + [page])[..i] == entries[..i];
      if page.notebookId != notebookId {
        continue;
      }
      extended := extended + [PageOf(page, getHtml, contentOf)];
    }
    assert entries[..|entries|] == entries;
  }

  /** One more response adds the pages of its entries, if it has a `value`, after those collected so far. */
  lemma CollectStep(rs: seq<Response>, r: Response, notebookId: string, getHtml: bool, contentOf: string -> string)
    ensures PagesOf(EntriesOf(rs + [r]), notebookId, getHtml, contentOf)
         == PagesOf(EntriesOf(rs), notebookId, getHtml, contentOf)
            + (if r.value.Some? then PagesOf(r.value.value, notebookId, getHtml, contentOf) else [])
  {
    EntriesOfSnoc(rs, r);
    if r.value.Some? {
      PagesOfAppend(EntriesOf(rs), r.value.value, notebookId, getHtml, contentOf);
    } else {
      assert EntriesOf(rs) + [] == EntriesOf(rs);
    }
  }

  /**
   * Request `k + 1` follows response `k`: that response had a `value` and a
   * next link, and the next link is the URL requested next.
   */
  ghost predicate FollowedFrom(responses: seq<Response>, urls: seq<Url>, k: int)
  {
    && 0 <= k < |responses| && k + 1 < |urls|
    && responses[k].value.Some? && responses[k].nextLink.Some?
    && urls[k + 1] == NextLink(responses[k].nextLink.value)
  }

  /** Requesting `url` next keeps every request after the first one following its predecessor. */
  lemma FollowExtend(responses: seq<Response>, urls: seq<Url>, url: Url)
    requires |urls| < |responses|
    requires forall k :: 0 <= k < |urls| - 1 ==> FollowedFrom(responses, urls, k)
    requires |urls| > 0 ==>
               && responses[|urls| - 1].value.Some? && responses[|urls| - 1].nextLink.Some?
               && url == NextLink(responses[|urls| - 1].nextLink.value)
    ensures forall k :: 0 <= k < |urls| ==> FollowedFrom(responses, urls + [url], k)
  {
    forall k | 0 <= k < |urls|
      ensures FollowedFrom(responses, urls + [url], k)
    {
      if k < |urls| - 1 {
        assert FollowedFrom(responses, urls, k);
      }
    }
  }

  /**
   * `read_notebook_pages`: request `PagesQuery(notebookId)`, then follow
   * `@odata.nextLink` while the response carries one; stop at a response
   * without `value`; from each response keep, in order, the entries of the
   * configured notebook as pages. Besides the pages it returns the URLs it
   * requested and why it stopped.
   */
  method ReadNotebookPages(responses: seq<Response>, notebookId: string, getHtml: bool, contentOf: string -> string)
    returns (notebook: seq<Page>, urls: seq<Url>, stop: Stop)
    ensures |urls| <= |responses|
    ensures |urls| > 0 ==> urls[0] == PagesQuery(notebookId)
    ensures forall k :: 0 <= k < |urls| - 1 ==> FollowedFrom(responses, urls, k)
    ensures stop == EmptyResponse ==> |urls| > 0 && responses[|urls| - 1].value.None?
    ensures stop == LastPage ==>
              |urls| > 0 && responses[|urls| - 1].value.Some? && responses[|urls| - 1].nextLink.None?
    ensures stop == OutOfResponses ==>
              |urls| == |responses| &&
              (|urls| > 0 ==> responses[|urls| - 1].value.Some? && responses[|urls| - 1].nextLink.Some?)
    ensures notebook == PagesOf(EntriesOf(responses[..|urls|]), notebookId, getHtml, contentOf)
  {
    notebook, urls := [], [];
    var url := PagesQuery(notebookId);
    ghost var seen: seq<Response> := [];
    while |urls| < |responses|
      invariant |urls| <= |responses|
      invariant |urls| > 0 ==> urls[0] == PagesQuery(notebookId)
      invariant forall k :: 0 <= k < |urls| - 1 ==> FollowedFrom(responses, urls, k)
      invariant |urls| == 0 ==> url == PagesQuery(notebookId)
      invariant |urls| > 0 ==>
                  && responses[|urls| - 1].value.Some? && responses[|urls| - 1].nextLink.Some?
                  && url == NextLink(responses[|urls| - 1].nextLink.value)
      invariant seen == responses[..|urls|]
      invariant notebook == PagesOf(EntriesOf(seen), notebookId, getHtml, contentOf)
    {
      var graphData := responses[|urls|];
      CollectStep(seen, graphData, notebookId, getHtml, contentOf);
      assert responses[..|urls| + 1] == seen + [graphData];
      seen := seen + [graphData];
      FollowExtend(responses, urls, url);
      urls := urls + [url];
      if graphData.value.None? {
        stop := EmptyResponse;
        return;
      }
      notebook := AppendPages(notebook, graphData.value.value, notebookId, getHtml, contentOf);
      if graphData.nextLink.None? {
        stop := LastPage;
        return;
      }
      url := NextLink(graphData.nextLink.value);
    }
    stop := OutOfResponses;
  }

  /** Every collected page comes from an entry of the configured notebook and is built from that entry. */
  lemma {:induction false} PagesOfSound(es: seq<Entry>, notebookId: string, getHtml: bool, contentOf: string -> string, k: nat)
    requires k < |PagesOf(es, notebookId, getHtml, contentOf)|
    ensures exists j :: 0 <= j < |es| && es[j].notebookId == notebookId &&
              PagesOf(es, notebookId, getHtml, contentOf)[k] == PageOf(es[j], getHtml, contentOf)
  {
    var init := es[..|es| - 1];
    var e := es[|es| - 1];
    var before := PagesOf(init, notebookId, getHtml, contentOf);
    if k < |before| {
      PagesOfSound(init, notebookId, getHtml, contentOf, k);
      var j :| 0 <= j < |init| && init[j].notebookId == notebookId && before[k] == PageOf(init[j], getHtml, contentOf);
      assert es[j] == init[j];
    } else {
      assert es[|es| - 1] == e;
    }
  }

  /**
   * Every entry of the configured notebook yields its page, placed after the
   * pages of the entries before it and before those of the entries after it.
   */
  lemma PagesOfSplit(es: seq<Entry>, notebookId: string, getHtml: bool, contentOf: string -> string, j: nat)
    requires j < |es| && es[j].notebookId == notebookId
    ensures PagesOf(es, notebookId, getHtml, contentOf)
         == PagesOf(es[..j], notebookId, getHtml, contentOf)
            + [PageOf(es[j], getHtml, contentOf)]
            + PagesOf(es[j + 1..], notebookId, getHtml, contentOf)
  {
    assert es == es[..j] + [es[j]] + es[j + 1..];
    PagesOfAppend(es[..j] + [es[j]], es[j + 1..], notebookId, getHtml, contentOf);
    PagesOfAppend(es[..j], [es[j]], notebookId, getHtml, contentOf);
    assert [es[j]][..0] == [];
  }

  /**
   * No collected name contains `/`, and without `get_html` every collected
   * page has an empty HTML body.
   */
  lemma PagesOfShape(es: seq<Entry>, notebookId: string, getHtml: bool, contentOf: string -> string)
    ensures forall p :: p in PagesOf(es, notebookId, getHtml, contentOf) ==> '/' !in p.name
    ensures !getHtml ==> forall p :: p in PagesOf(es, notebookId, getHtml, contentOf) ==> p.html == ""
  {
    var pages := PagesOf(es, notebookId, getHtml, contentOf);
    forall k | 0 <= k < |pages|
      ensures '/' !in pages[k].name && (!getHtml ==> pages[k].html == "")
    {
      PagesOfSound(es, notebookId, getHtml, contentOf, k);
      var j :| 0 <= j < |es| && es[j].notebookId == notebookId && pages[k] == PageOf(es[j], getHtml, contentOf);
      PageNameShape(es[j].sectionName, es[j].title);
    }
  }

  /** The local directory the pages are written to before upload. */
  const Directory := "./documents"

  /** `f"{directory}/{page.name}.html"`. */
  function UploadPath(name: string): string
  {
    Directory + "/" + name + ".html"
  }

  /** `path` names a file directly inside `dir`, not in a sub-directory of it. */
  predicate DirectlyIn(dir: string, path: string)
  {
    |dir| + 1 < |path| && path[..|dir| + 1] == dir + "/" && '/' !in path[|dir| + 1..]
  }

  /** The page name back from its upload path. */
  function NameOfPath(path: string): string
  {
    if |path| >= |Directory| + 6 then path[|Directory| + 1..|path| - 5] else path
  }

  /** Upload paths are distinct for distinct names: `NameOfPath` recovers the name. */
  lemma UploadPathRoundTrip(name: string)
    ensures NameOfPath(UploadPath(name)) == name
  {
    var path := UploadPath(name);
    assert path[|Directory| + 1..|path| - 5] == name;
  }

  /** A name without `/` gives a path that lies directly inside `./documents`. */
  lemma UploadPathInDirectory(name: string)
    requires '/' !in name
    ensures DirectlyIn(Directory, UploadPath(name))
  {
    var path := UploadPath(name);
    assert path[..|Directory| + 1] == Directory + "/";
    assert path[|Directory| + 1..] == name + ".html";
  }

  /** What `create_corpus` writes and uploads for one page. */
  datatype Upload = Upload(path: string, contents: string, description: string, displayName: string)

  /**
   * The loop of `create_corpus` over the collected pages: for each page, in
   * order, its HTML is written to its upload path and that file is uploaded
   * with the page URL as description and the page name as display name.
   */
  method CorpusUploads(notebook: seq<Page>) returns (uploads: seq<Upload>)
    ensures |uploads| == |notebook|
    ensures forall i :: 0 <= i < |notebook| ==>
              && uploads[i].path == UploadPath(notebook[i].name)
              && uploads[i].contents == notebook[i].html
              && uploads[i].description == notebook[i].url
              && uploads[i].displayName == notebook[i].name
    ensures forall i :: 0 <= i < |notebook| && '/' !in notebook[i].name ==> DirectlyIn(Directory, uploads[i].path)
  {
    uploads := [];
    for i := 0 to |notebook|
      invariant |uploads| == i
      invariant forall k :: 0 <= k < i ==>
                  && uploads[k].path == UploadPath(notebook[k].name)
                  && uploads[k].contents == notebook[k].html
                  && uploads[k].description == notebook[k].url
                  && uploads[k].displayName == notebook[k].name
      invariant forall k :: 0 <= k < i && '/' !in notebook[k].name ==> DirectlyIn(Directory, uploads[k].path)
    {
      var page := notebook[i];
      var path := UploadPath(page.name);
      if '/' !in page.name {
        UploadPathInDirectory(page.name);
      }
      uploads := uploads + [Upload(path, page.html, page.url, page.name)];
    }
  }

  /** Every page `read_notebook_pages` collects is uploaded from a file directly inside `./documents`. */
  lemma CollectedPagesStayInDirectory(es: seq<Entry>, notebookId: string, getHtml: bool, contentOf: string -> string)
    ensures forall p :: p in PagesOf(es, notebookId, getHtml, contentOf) ==> DirectlyIn(Directory, UploadPath(p.name))
  {
    PagesOfShape(es, notebookId, getHtml, contentOf);
    forall p | p in PagesOf(es, notebookId, getHtml, contentOf)
      ensures DirectlyIn(Directory, UploadPath(p.name))
    {
      UploadPathInDirectory(p.name);
    }
  }
}
