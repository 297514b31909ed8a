# notebook-rag, modelled in Dafny

notebook-rag is a personal question-answering assistant over a OneNote
notebook. `documents.py` lists the notebook's pages through the Microsoft
Graph API and uploads them to a retrieval corpus. `main.py` is a chat page.
It answers from that corpus and annotates each answer with links back to the
notebook pages it drew on. This project models the deterministic logic
between those services and proves properties of it:

- `documents.dfy` (module `Documents`): the paginated page-collection loop of
  `read_notebook_pages` and the per-page upload loop of `create_corpus`.
  - The Graph responses are a given sequence of decoded records. The k-th
    listing request returns `responses[k]`.
  - Downloading a page's HTML is a function parameter, `contentOf`, applied
    to the page's id. It stands for the body of
    `https://graph.microsoft.com/v1.0/me/onenote/pages/<id>/content`.
  - A requested URL is either the first pages query for the configured
    notebook (`PagesQuery`) or a next link copied from a response
    (`NextLink`).
- `links.dfy` (module `Links`): `convert_title_to_notebook_link`. The page
  list that main.py keeps in its session state is a parameter here.
- `corpora.dfy` (module `Corpora`): choosing the newest corpus with the
  configured display name.
  - `sorted(...)` is modelled as a stable insertion sort.
  - Its last element is proved equal to the result of an independent scan.
- `chat.dfy` (module `Chat`): the sources tooltip of an answer, the
  `tooltips` list kept beside the chat history, and how the history is
  rendered with those tooltips.
- `text.dfy` (module `Text`) and `wrappers.dfy` (module `Wrappers`): the
  Python string operations the code uses (`replace`, `in`, `removesuffix`,
  `"\n".join`), and `Option` in place of `None`.

Environment variables become parameters: `NOTEBOOK_ID` is `notebookId` and
`CORPUS_NAME` is `wanted`.

Python iterates over the set of retrieved titles in an order of its own.
`Chat.SourcesTooltip` picks that order arbitrarily and returns it. Its
contract holds for every order.

## Model

| member | source | states |
|---|---|---|
| `Documents.ReadNotebookPages` | documents.py:37-73 | The first request is the pages query for the configured notebook. Each later request goes to the previous response's `@odata.nextLink`, and every response before the last one had both `value` and a next link. The loop stops at a response without `value` or without a next link. The pages returned are exactly those built from the consumed responses' entries, in order, including when it stops at a response without `value`. |
| `Documents.AppendPages` | documents.py:51-65 | The loop over one response's `value` extends the page list by exactly the pages of that response's entries from the configured notebook, in entry order. |
| `Documents.PageNameShape` | documents.py:55 | A page name has no `/` and is three characters longer than section and title together. |
| `Text.ReplaceChar` | documents.py:55 | `replace("/", "-")` changes each `/` into `-`, keeps every other character and keeps the length. |
| `Documents.PagesOfAppend` | documents.py:42-70 | The pages of two runs of entries are the pages of the first run followed by those of the second. Earlier responses' pages come before later ones. |
| `Documents.PagesOfSound` | documents.py:53-65 | Every collected page is built from some entry whose `parentNotebook.id` is the configured id. Its name comes from section and title, its id is the entry's id, its url is `links.oneNoteWebUrl.href`, and its html is the downloaded content or `""`. |
| `Documents.PagesOfSplit` | documents.py:51-65 | Every entry of the configured notebook yields its page. That page comes after the pages of the entries before it and before those of the entries after it. |
| `Documents.PagesOfShape` | documents.py:55-63 | No collected name contains `/`. Without `get_html`, every collected page has html `""`. |
| `Documents.UploadPathRoundTrip` | documents.py:98 | The page name can be recovered from `./documents/<name>.html`, so distinct names give distinct paths. |
| `Documents.UploadPathInDirectory` | documents.py:78-98 | A name without `/` gives an upload path that lies directly inside `./documents`. |
| `Documents.CorpusUploads` | documents.py:96-113 | There is one upload per page, in order. Each has path `./documents/<name>.html`, the page's HTML as contents, its url as description and its name as display name. The path of a name without `/` lies directly inside `./documents`. |
| `Documents.CollectedPagesStayInDirectory` | documents.py:55-98 | Every page collected by the listing loop is uploaded from a file directly inside `./documents`. |
| `Text.Contains` | main.py:36 | Python's `needle in hay` holds exactly when the needle occurs at some position of the hay. |
| `Text.RemoveSuffix` | main.py:36 | `removesuffix` drops a non-empty suffix once when the string ends with it. Otherwise it returns the string unchanged. |
| `Links.FirstNamed` | main.py:33 | Gives the first page whose name equals the title, or none if no page has that name. |
| `Links.FirstContaining` | main.py:35-37 | Gives the first page whose name contains the search text, or none if no page does. |
| `Links.TitleResolution` | main.py:31-39 | If some page has exactly the title as its name, the result is `[name](url)` of the first such page. Otherwise it is the link of the first page whose name contains the title with a trailing `xa0` stripped. Otherwise it is `title + " *(URL not found)*"`. |
| `Links.ExactMatchFirst` | main.py:33-37 | An exact name match wins over a substring match, even over one on an earlier page. |
| `Links.BareSuffixMatchesFirstPage` | main.py:36 | A title that is exactly `xa0` strips to the empty string. If no page has that exact name, the title resolves to the first page. |
| `Links.NoBreakSpaceKept` | main.py:36 | Only the three characters `xa0` are stripped. A trailing U+00A0 no-break space stays in the search text. |
| `Corpora.SortByCreateTimeSorts` | main.py:44-46 | `sorted(..., key=create_time)` returns a permutation of its input in ascending order of creation time. |
| `Corpora.InsertSorted` | main.py:44-46 | Each insertion step of the sort keeps the sequence sorted. |
| `Corpora.InsertPermutes` | main.py:44-46 | Each insertion step of the sort adds the inserted corpus and loses nothing. |
| `Corpora.NewestIndexCorrect` | main.py:44-47 | The reference scan finds a corpus with the configured name that was created no earlier than any other corpus of that name, and strictly later than every one listed after it. It finds none exactly when no corpus has the name. |
| `Corpora.SortedLastIsNewest` | main.py:44-47 | The last of the sorted matching corpora is the corpus the reference scan finds. The sorted list is empty exactly when the scan finds none. |
| `Corpora.SelectCorpus` | main.py:44-47 | The chosen name is that of the newest corpus with the configured display name, and of the last one listed among equally new ones. There is no result, where Python raises `IndexError`, exactly when no corpus has that name. |
| `Corpora.NewestIsUnique` | main.py:43-47 | At most one corpus satisfies the selection criterion, so the choice is determined. |
| `Chat.RetrievedTitles` | main.py:97 | A title is retrieved exactly when some non-`None` chunk carries it. |
| `Chat.SourcesTooltip` | main.py:96-100 | There is no tooltip exactly when there is no candidate, no grounding metadata or no chunk. Otherwise the tooltip joins with newlines one `* <link>` line per distinct retrieved title. The titles come in some order that lists each retrieved title once. |
| `Chat.AllChunksAbsent` | main.py:96-98 | A grounded answer whose chunks are all `None` gets the empty tooltip `""`, not `None`. |
| `Chat.TooltipLineCount` | main.py:97-98 | When links contain no newline, the tooltip has exactly one line per distinct retrieved title. |
| `Text.JoinLinesCount` | main.py:98 | Joining newline-free lines puts exactly one newline between consecutive lines. |
| `Chat.RenderAligned` | main.py:84-87 | `zip(history, tooltips)` renders every message when there are at least as many tooltips as messages. Each message shows its parts joined by newlines. Assistant messages show the tooltip at their own index, and user messages show none. |
| `Chat.AlignedTurn` | main.py:92-104 | A whole turn keeps history and tooltips in step. It adds a user message with tooltip `""` and then a model message with its sources tooltip. |
| `Chat.ChatSession.constructor` | main.py:81-82 | A new chat starts with an empty history and an empty tooltip list, in step. |
| `Chat.ChatSession.Ask` | main.py:89-104 | A completed prompt appends exactly two tooltips in order: `""` for the user turn, then the answer's sources tooltip. The history gains the prompt as a one-part user message and the answer's parts as a model message. It keeps history and tooltips in step. In the corrected form, a prompt that fails changes nothing. |
| `Chat.ChatSession.AskAsWritten` | main.py:89-104 | As main.py orders it, a failed prompt still leaves its `""` in `tooltips` while the history does not grow. |
| `Chat.FailedPromptShiftsTooltips` | main.py:84-104 | After one failed prompt, every answer of any number of later completed turns is shown with a `""` tooltip instead of its own sources. |
| `Chat.TurnsShowOwnSources` | main.py:84-104 | With history and tooltips in step, every answer of any number of later completed turns is shown with its own sources tooltip. |
| `Chat.TurnMessagesAt` | main.py:89-103 | Turn `i` puts its prompt at history position `2i` and its answer at `2i + 1`. |
| `Chat.TurnTooltipsAt` | main.py:92-104 | Turn `i` puts `""` at tooltip position `2i` and its sources at `2i + 1`. |
| `Chat.ChatSession.Bubbles` | main.py:84-87 | In a session whose history and tooltips are in step, every message is shown as its parts joined by newlines. User messages have no tooltip, and each assistant message has the tooltip of its own turn. |

## Left out

- Interactive sign-in with MSAL and the `exit(1)` on failure (documents.py:19-33) are not modelled. They depend on a foreign library and end the process.
- The HTTP calls to Microsoft Graph are not modelled (documents.py:43-46, 58-61). Responses are decoded records and page HTML is the function `contentOf`.
- Malformed entries are not modelled. Python raises `KeyError`/`TypeError` for an entry without `parentNotebook`, `parentSection`, `title` or `links`. The model's `Entry` always has these fields.
- Documents.ReadNotebookPages: the loop runs over a finite sequence of given responses. When the chain still has a next link but no response is left, the model stops with `OutOfResponses`. The real loop would request again and may never end if a next link repeats.
- Corpus creation, file upload and `vertexai.init` are not modelled (documents.py:80-93, 102-113). They are managed services. `Documents.CorpusUploads` gives what is written and uploaded for each page. The chunking settings (size 512, overlap 100) are passed through and not modelled.
- Writing the HTML files is not modelled (documents.py:95, 99-100). It is I/O. Two pages with the same name overwrite one file, but each upload happens right after its own write, so it carries its own page's HTML.
- Loading the name-to-URL map from cloud storage is not modelled (main.py:21-29). The page list is a parameter. It comes from a JSON object, so names are unique there, but the model does not rely on that.
- The Gemini client, chat creation, `send_message` and the retrieval tool settings (top-k 3, distance threshold 0.5) are not modelled (main.py:50-81, 95). They are a hosted model. An answer is given as a `ChatResponse`, or `None` when sending raised.
- Chat.ChatSession.Ask: the history appends the user and model messages on success and nothing on failure. The answer's parts are all text parts. Non-text parts are not modelled, and neither is `response.text` as shown once when the answer arrives (main.py:103). This is an assumption about the chat object's behaviour, not something the repository's code shows.
- A chunk whose `retrieved_context` is `None` is not modelled. Python raises `AttributeError` there. The model's chunks always carry a title.
- `create_time` is a plain integer. Only its order matters.
- All Streamlit rendering and session plumbing is not modelled (main.py:19, 84-91, 102-103). Only what each message is shown with is modelled.
- Console printing and the `__main__` block of documents.py are not modelled.
- A response without `value` ends the whole loop (documents.py:47-50), and the pages collected so far are returned (documents.py:73).

## Findings

| source | as written | input that shows it | evidently intended | confidence | as-written member | corrected member |
|---|---|---|---|---|---|---|
| main.py:92-104 | `tooltips.append("")` runs before `send_message`, so a prompt whose `send_message` raises leaves one extra tooltip while the chat history does not grow | One prompt whose `send_message` raises, then a prompt whose answer has sources: that answer is shown with tooltip `""`, and so is every later answer | Tooltips stay in step with the history, with no entry added for a turn that did not complete | medium, not executed (assumes the chat records only completed turns) | `Chat.ChatSession.AskAsWritten`, `Chat.FailedPromptShiftsTooltips` | `Chat.ChatSession.Ask` |
