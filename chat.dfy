/**
 * The chat page (main.py): the sources tooltip built from a grounded answer,
 * and the per-message tooltip list that the page keeps beside the chat
 * history and shows next to each assistant message.
 *
 * The hosted model is replaced by its answer: `Ask` is given the response
 * that `send_message` returned and appends the user turn and the model turn
 * to the history, as the chat object does.
 */
module Chat {
  import opened Wrappers
  import opened Text
  import opened Links

  /** A grounding chunk's retrieved context, reduced to its title. */
  datatype Chunk = Chunk(title: string)

  /** Grounding metadata: its chunks, some of which may be `None` (an absent list is the empty one). */
  datatype GroundingMetadata = GroundingMetadata(groundingChunks: seq<Option<Chunk>>)

  datatype Candidate = Candidate(groundingMetadata: Option<GroundingMetadata>)

  /**
   * A model response: `text` is `response.text`, shown once as the answer
   * arrives; `parts` are the texts of the parts of the answer's content, which
   * the chat history records; `candidates` carry the grounding (an absent
   * list is the empty one).
   */
  datatype ChatResponse = ChatResponse(text: string, parts: seq<string>, candidates: seq<Candidate>)

  /**
   * The condition of the `if` in main.py: there is a first candidate, it has
   * grounding metadata, and that metadata has at least one chunk.
   */
  predicate Grounded(response: ChatResponse)
  {
    && |response.candidates| > 0
    && response.candidates[0].groundingMetadata.Some?
    && |response.candidates[0].groundingMetadata.value.groundingChunks| > 0
  }

  /** The chunks of a grounded response. */
  function GroundingChunks(response: ChatResponse): seq<Option<Chunk>>
    requires Grounded(response)
  {
    response.candidates[0].groundingMetadata.value.groundingChunks
  }

  /** `set(chunk.retrieved_context.title for chunk in chunks if chunk is not None)`. */
  function RetrievedTitles(chunks: seq<Option<Chunk>>): (titles: set<string>)
    ensures forall t :: t in titles <==> exists k :: 0 <= k < |chunks| && chunks[k] == Some(Chunk(t))
  {
    set c | c in chunks && c.Some? :: c.value.title
  }

  /** One `* <link>` line per title, in the order given. */
  function SourceLines(notebook: seq<LinkPage>, titles: seq<string>): (lines: seq<string>)
    ensures |lines| == |titles|
    ensures forall k :: 0 <= k < |titles| ==> lines[k] == "* " + ConvertTitleToNotebookLink(notebook, titles[k])
  {
    if titles == [] then []
    else ["* " + ConvertTitleToNotebookLink(notebook, titles[0])] + SourceLines(notebook, titles[1..])
  }

  /** `titles` lists the elements of `s`, each once, in some order. */
  ghost predicate Enumerates(titles: seq<string>, s: set<string>)
  {
    && (forall i, j :: 0 <= i < j < |titles| ==> titles[i] != titles[j])
    && (forall t :: t in titles <==> t in s)
  }

  /**
   * `tooltip` is a sources tooltip for `response` whose lines follow `order`:
   * none for an ungrounded response, otherwise one line per distinct retrieved
   * title, joined by newlines.
   */
  ghost predicate IsSourcesTooltip(notebook: seq<LinkPage>, response: ChatResponse, order: seq<string>, tooltip: Option<string>)
  {
    if Grounded(response) then
      && Enumerates(order, RetrievedTitles(GroundingChunks(response)))
      && tooltip == Some(JoinLines(SourceLines(notebook, order)))
    else
      tooltip.None? && order == []
  }

  /**
   * The sources tooltip of one answer. Python iterates over the set of
   * retrieved titles in an order of its own; here that order is an arbitrary
   * choice, returned as `order`.
   */
  method SourcesTooltip(notebook: seq<LinkPage>, response: ChatResponse) returns (tooltip: Option<string>, order: seq<string>)
    ensures tooltip.None? <==> !Grounded(response)
    ensures Grounded(response) ==>
              && Enumerates(order, RetrievedTitles(GroundingChunks(response)))
              && |order| == |RetrievedTitles(GroundingChunks(response))|
              && tooltip == Some(JoinLines(SourceLines(notebook, order)))
    ensures !Grounded(response) ==> order == []
    ensures IsSourcesTooltip(notebook, response, order, tooltip)
  {
    if !Grounded(response) {
      return None, [];
    }
    var retrieved := RetrievedTitles(GroundingChunks(response));
    var remaining := retrieved;
    order := [];
    while remaining != {}
      invariant remaining <= retrieved
      invariant forall i, j :: 0 <= i < j < |order| ==> order[i] != order[j]
      invariant forall t :: t in order <==> t in retrieved && t !in remaining
      invariant |order| + |remaining| == |retrieved|
      decreases remaining
    {
      var title :| title in remaining;
      order := order + [title];
      remaining := remaining - {title};
    }
    tooltip := Some(JoinLines(SourceLines(notebook, order)));
  }

  /**
   * When every chunk of a grounded response is `None`, no title is
   * retrieved and the tooltip is the empty string, not `None`.
   */
  lemma AllChunksAbsent(notebook: seq<LinkPage>, response: ChatResponse, order: seq<string>, tooltip: Option<string>)
    requires Grounded(response)
    requires forall k :: 0 <= k < |GroundingChunks(response)| ==> GroundingChunks(response)[k].None?
    requires IsSourcesTooltip(notebook, response, order, tooltip)
    ensures tooltip == Some("")
  {
    var titles := RetrievedTitles(GroundingChunks(response));
    assert titles == {};
    EnumerationSize(order, titles);
  }

  /**
   * A tooltip built from titles and links without newlines has exactly one
   * line per distinct retrieved title.
   */
  lemma TooltipLineCount(notebook: seq<LinkPage>, response: ChatResponse, order: seq<string>, tooltip: Option<string>)
    requires Grounded(response) && IsSourcesTooltip(notebook, response, order, tooltip)
    requires order != []
    requires forall t :: t in order ==> NewlineCount(ConvertTitleToNotebookLink(notebook, t)) == 0
    ensures tooltip.Some? && NewlineCount(tooltip.value) == |order| - 1
    ensures |order| == |RetrievedTitles(GroundingChunks(response))|
  {
    var lines := SourceLines(notebook, order);
    forall k | 0 <= k < |lines|
      ensures NewlineCount(lines[k]) == 0
    {
      NewlineCountAppend("* ", ConvertTitleToNotebookLink(notebook, order[k]));
    }
    JoinLinesCount(lines);
    EnumerationSize(order, RetrievedTitles(GroundingChunks(response)));
  }

  /** An enumeration without repetition has as many elements as the set it lists. */
  lemma {:induction false} EnumerationSize(titles: seq<string>, s: set<string>)
    requires Enumerates(titles, s)
    ensures |titles| == |s|
  {
    if titles != [] {
      var rest := titles[1..];
      assert Enumerates(rest, s - {titles[0]}) by {
        forall t
          ensures t in rest <==> t in s - {titles[0]}
        {
          if t in rest {
            var j :| 0 <= j < |rest| && rest[j] == t;
            assert titles[j + 1] == t;
          }
          if t in s - {titles[0]} {
            var j :| 0 <= j < |titles| && titles[j] == t;
            assert j != 0 && rest[j - 1] == t;
          }
        }
      }
      EnumerationSize(rest, s - {titles[0]});
    } else {
      assert forall t :: t !in s;
      assert s == {};
    }
  }

  /** Who sent a message of the chat history. */
  datatype Role = User | Model

  /** A message of the chat history: its role and the texts of its parts. */
  datatype Message = Message(role: Role, parts: seq<string>)

  /** A message as the page renders it: role name shown, text, and tooltip text if any. */
  datatype Bubble = Bubble(role: string, text: string, help: Option<string>)

  /** `"assistant" if message.role == "model" else message.role`. */
  function RoleName(role: Role): string
  {
    match role
    case User => "user"
    case Model => "assistant"
  }

  /**
   * The rendering loop over `zip(history, tooltips)`: one bubble per pair, its
   * text the message's parts joined by newlines, the tooltip shown only on
   * assistant messages; pairs end with the shorter list.
   */
  function Render(history: seq<Message>, tooltips: seq<Option<string>>): (bubbles: seq<Bubble>)
    ensures |bubbles| == if |history| <= |tooltips| then |history| else |tooltips|
  {
    if history == [] || tooltips == [] then []
    else
      var m := history[0];
      [Bubble(RoleName(m.role), JoinLines(m.parts), if m.role == Model then tooltips[0] else None)]
      + Render(history[1..], tooltips[1..])
  }

  /**
   * History and tooltips in step: equally long, made of whole turns, user and
   * model messages alternating from a user message, and an empty tooltip at
   * each user message.
   */
  ghost predicate Aligned(history: seq<Message>, tooltips: seq<Option<string>>)
  {
    && |history| == |tooltips|
    && |history| % 2 == 0
    && (forall k :: 0 <= k < |history| ==> history[k].role == (if k % 2 == 0 then User else Model))
    && (forall k :: 0 <= k < |tooltips| && k % 2 == 0 ==> tooltips[k] == Some(""))
  }

  /** A whole turn keeps history and tooltips in step. */
  lemma AlignedTurn(history: seq<Message>, tooltips: seq<Option<string>>, prompt: string, answer: seq<string>, sources: Option<string>)
    requires Aligned(history, tooltips)
    ensures Aligned(history + [Message(User, [prompt]), Message(Model, answer)], tooltips + [Some(""), sources])
  {
    var n := |history|;
    var h := history + [Message(User, [prompt]), Message(Model, answer)];
    var t := tooltips + [Some(""), sources];
    assert n % 2 == 0 && (n + 1) % 2 == 1;
    forall k | 0 <= k < |h|
      ensures h[k].role == (if k % 2 == 0 then User else Model)
      ensures k % 2 == 0 ==> t[k] == Some("")
    {
      if k < n {
        assert h[k] == history[k] && t[k] == tooltips[k];
      }
    }
  }

  /**
   * With at least as many tooltips as messages, every message is rendered,
   * users' messages carry no tooltip, and the k-th message, if an assistant
   * message, carries the k-th tooltip.
   */
  lemma {:induction false} RenderAligned(history: seq<Message>, tooltips: seq<Option<string>>)
    requires |history| <= |tooltips|
    ensures |Render(history, tooltips)| == |history|
    ensures forall k :: 0 <= k < |history| ==>
              Render(history, tooltips)[k]
              == Bubble(RoleName(history[k].role), JoinLines(history[k].parts),
                        if history[k].role == Model then tooltips[k] else None)
  {
    if history != [] {
      RenderAligned(history[1..], tooltips[1..]);
    }
  }

  /**
   * The page's session: the chat (reduced to its history) and the tooltip
   * list kept beside it, both created empty when the chat is created.
   */
  class ChatSession {
    const notebook: seq<LinkPage>
    var history: seq<Message>
    var tooltips: seq<Option<string>>

    ghost predicate Valid()
      reads this
    {
      Aligned(history, tooltips)
    }

    constructor (notebook: seq<LinkPage>)
      ensures Valid()
      ensures this.notebook == notebook && history == [] && tooltips == []
    {
      this.notebook := notebook;
      history := [];
      tooltips := [];
    }

    /**
     * One prompt: append `""` for the user turn, send the prompt, then append
     * the answer's sources tooltip for the assistant turn. `reply` is the
     * answer, or `None` when sending the prompt raised. In this definition
     * the `""` is appended only once the answer has arrived, so a prompt that
     * fails leaves the session as it was.
     */
    method Ask(prompt: string, reply: Option<ChatResponse>) returns (sources: Option<string>, order: seq<string>)
      requires Valid()
      modifies this
      ensures Valid()
      ensures reply.None? ==> tooltips == old(tooltips) && history == old(history)
      ensures reply.Some? ==>
                && tooltips == old(tooltips) + [Some(""), sources]
                && history == old(history) + [Message(User, [prompt]), Message(Model, reply.value.parts)]
                && IsSourcesTooltip(notebook, reply.value, order, sources)
    {
      if reply.None? {
        return None, [];
      }
      ghost var history0, tooltips0 := history, tooltips;
      history := history + [Message(User, [prompt]), Message(Model, reply.value.parts)];
      tooltips := tooltips + [Some("")];
      sources, order := SourcesTooltip(notebook, reply.value);
      tooltips := tooltips + [sources];
      AlignedTurn(history0, tooltips0, prompt, reply.value.parts, sources);
    }

    /**
     * One prompt as main.py orders it: the `""` is appended before the prompt
     * is sent, so it stays when sending raises, while the chat history (which
     * records only completed turns) does not grow.
     */
    method AskAsWritten(prompt: string, reply: Option<ChatResponse>) returns (sources: Option<string>, order: seq<string>)
      modifies this
      ensures reply.None? ==> tooltips == old(tooltips) + [Some("")] && history == old(history)
      ensures reply.Some? ==>
                && tooltips == old(tooltips) + [Some(""), sources]
                && history == old(history) + [Message(User, [prompt]), Message(Model, reply.value.parts)]
                && IsSourcesTooltip(notebook, reply.value, order, sources)
    {
      tooltips := tooltips + [Some("")];
      if reply.None? {
        return None, [];
      }
      history := history + [Message(User, [prompt]), Message(Model, reply.value.parts)];
      sources, order := SourcesTooltip(notebook, reply.value);
      tooltips := tooltips + [sources];
    }

    /** What the page shows for the session. */
    function Bubbles(): (bubbles: seq<Bubble>)
      reads this
      requires Valid()
      ensures |bubbles| == |history|
      ensures forall k :: 0 <= k < |history| ==>
                bubbles[k].role == RoleName(history[k].role) && bubbles[k].text == JoinLines(history[k].parts)
      ensures forall k :: 0 <= k < |history| ==>
                bubbles[k].help == if k % 2 == 0 then None else tooltips[k]
    {
      RenderAligned(history, tooltips);
      Render(history, tooltips)
    }
  }

  /** A completed prompt: what was asked, the parts of the answer, and the answer's sources tooltip. */
  datatype Turn = Turn(prompt: string, answer: seq<string>, sources: Option<string>)

  /** The messages the chat history records for a run of completed turns. */
  function TurnMessages(turns: seq<Turn>): (messages: seq<Message>)
    ensures |messages| == 2 * |turns|
  {
    if turns == [] then []
    else [Message(User, [turns[0].prompt]), Message(Model, turns[0].answer)] + TurnMessages(turns[1..])
  }

  /** The tooltips appended for a run of completed turns: `""` for each prompt, then the answer's sources. */
  function TurnTooltips(turns: seq<Turn>): (tooltips: seq<Option<string>>)
    ensures |tooltips| == 2 * |turns|
  {
    if turns == [] then []
    else [Some(""), turns[0].sources] + TurnTooltips(turns[1..])
  }

  /** Turn `i` contributes the prompt and then the answer, at positions `2i` and `2i + 1`. */
  lemma {:induction false} TurnMessagesAt(turns: seq<Turn>, i: nat)
    requires i < |turns|
    ensures TurnMessages(turns)[2 * i] == Message(User, [turns[i].prompt])
    ensures TurnMessages(turns)[2 * i + 1] == Message(Model, turns[i].answer)
  {
    if i > 0 {
      TurnMessagesAt(turns[1..], i - 1);
    } else if |turns| > 1 {
      TurnMessagesAt(turns[1..], 0);
    }
  }

  /** Turn `i` contributes `""` and then its sources, at positions `2i` and `2i + 1`. */
  lemma {:induction false} TurnTooltipsAt(turns: seq<Turn>, i: nat)
    requires i < |turns|
    ensures TurnTooltips(turns)[2 * i] == Some("")
    ensures TurnTooltips(turns)[2 * i + 1] == turns[i].sources
  {
    if i > 0 {
      TurnTooltipsAt(turns[1..], i - 1);
    } else if |turns| > 1 {
      TurnTooltipsAt(turns[1..], 0);
    }
  }

  /**
   * In step, every answer of a run of completed turns is shown with its own
   * sources tooltip.
   */
  lemma TurnsShowOwnSources(history: seq<Message>, tooltips: seq<Option<string>>, turns: seq<Turn>)
    requires |history| == |tooltips|
    ensures var history' := history + TurnMessages(turns);
            var tooltips' := tooltips + TurnTooltips(turns);
            && |Render(history', tooltips')| == |history'|
            && forall i :: 0 <= i < |turns| ==>
                 Render(history', tooltips')[|history| + 2 * i + 1]
                 == Bubble("assistant", JoinLines(turns[i].answer), turns[i].sources)
  {
    var history' := history + TurnMessages(turns);
    var tooltips' := tooltips + TurnTooltips(turns);
    RenderAligned(history', tooltips');
    forall i | 0 <= i < |turns|
      ensures Render(history', tooltips')[|history| + 2 * i + 1]
              == Bubble("assistant", JoinLines(turns[i].answer), turns[i].sources)
    {
      TurnMessagesAt(turns, i);
      TurnTooltipsAt(turns, i);
      assert history'[|history| + 2 * i + 1] == TurnMessages(turns)[2 * i + 1];
      assert tooltips'[|history| + 2 * i + 1] == TurnTooltips(turns)[2 * i + 1];
    }
  }

  /**
   * As main.py is written, one failed prompt shifts the tooltips against the
   * history for good: every answer completed after it is shown with the
   * empty tooltip of its own prompt instead of its sources.
   */
  lemma FailedPromptShiftsTooltips(history: seq<Message>, tooltips: seq<Option<string>>, turns: seq<Turn>)
    requires |history| == |tooltips|
    ensures var history' := history + TurnMessages(turns);
            var tooltips' := tooltips + [Some("")] + TurnTooltips(turns);
            && |Render(history', tooltips')| == |history'|
            && forall i :: 0 <= i < |turns| ==>
                 Render(history', tooltips')[|history| + 2 * i + 1]
                 == Bubble("assistant", JoinLines(turns[i].answer), Some(""))
  {
    var history' := history + TurnMessages(turns);
    var tooltips' := tooltips + [Some("")] + TurnTooltips(turns);
    RenderAligned(history', tooltips');
    forall i | 0 <= i < |turns|
      ensures Render(history', tooltips')[|history| + 2 * i + 1]
              == Bubble("assistant", JoinLines(turns[i].answer), Some(""))
    {
      TurnMessagesAt(turns, i);
      TurnTooltipsAt(turns, i);
      assert history'[|history| + 2 * i + 1] == TurnMessages(turns)[2 * i + 1];
      assert tooltips'[|history| + 2 * i + 1] == TurnTooltips(turns)[2 * i];
    }
  }
}
