/**
  The producer side of the streaming chat protocol (`generate_stream` inside
  `chat_stream`, `backend/api.py`): the records it emits for one question, the
  session memory it updates, and the server-sent-events framing of each record
  (`data: <json>` followed by a blank line, as in section 9.2 of the WHATWG HTML
  Living Standard).

  The vector-store query, the embedding model and the Ollama client are
  inputs: whether the collection holds documents, what the query returned (or
  the message it failed with), and a function from prompt to the response
  chunks the client yields before finishing or failing. JSON encoding of a
  record is an abstract function.
*/
module Stream {
  import opened Common
  import opened Strings
  import opened Prompt
  import opened Sources

  /** One record of the stream. */
  datatype Event = SourceList(sources: seq<SourceRef>) | Token(content: string) | Done | Error(error: string)

  /** What the vector-store query returned for the question: documents with their metadata, or the failure message. */
  datatype Retrieval = Hits(documents: seq<string>, metadatas: seq<Meta>) | RetrievalFailed(message: string)

  /** What the Ollama client yields for a prompt: response chunks, then possibly a failure. */
  datatype Generation = Generation(chunks: seq<string>, failure: Option<string>)

  /** `str(KeyError('source'))`, raised by `format_context` for metadata without a source. */
  const MissingSourceMessage: string := "'source'"

  /** Before generation starts: the prompt and the sources to announce, or the message of an exception already raised. */
  datatype Preamble = Aborted(message: string) | Ready(prompt: string, sources: seq<SourceRef>)

  /** The retrieval branch of `generate_stream`, up to and including the `sources` record. */
  function Prepare(t: Template, query: string, hasDocuments: bool, retrieval: Retrieval, memory: seq<string>): Preamble
  {
    if !hasDocuments then Ready(GeneratePrompt(t, query, "", Some(memory)), [])
    else match retrieval
      case RetrievalFailed(message) => Aborted(message)
      case Hits(documents, metadatas) =>
        if |documents| == 0 then Ready(GeneratePrompt(t, query, "", Some(memory)), [])
        else match FormattedContext(documents, metadatas)
          case None => Aborted(MissingSourceMessage)
          case Some(context) => Ready(GeneratePrompt(t, query, context, Some(memory)), SourcesList(metadatas))
  }

  /** One `token` record per non-empty chunk, in order. */
  function TokenEvents(chunks: seq<string>): (r: seq<Event>)
    ensures forall i :: 0 <= i < |r| ==> r[i].Token? && r[i].content != ""
    ensures |r| <= |chunks|
  {
    if |chunks| == 0 then []
    else TokenEvents(chunks[..|chunks| - 1]) + (if chunks[|chunks| - 1] != "" then [Token(chunks[|chunks| - 1])] else [])
  }

  /** The response accumulated from the chunks. */
  function Concat(chunks: seq<string>): string
  {
    if |chunks| == 0 then "" else Concat(chunks[..|chunks| - 1]) + chunks[|chunks| - 1]
  }

  /** The concatenated contents of token records. */
  function Contents(events: seq<Event>): string
  {
    if |events| == 0 then ""
    else Contents(events[..|events| - 1]) + (if events[|events| - 1].Token? then events[|events| - 1].content else "")
  }

  /** The records `generate_stream` emits for one question. */
  function StreamTrace(t: Template, query: string, hasDocuments: bool, retrieval: Retrieval, memory: seq<string>, llm: string -> Generation): seq<Event>
  {
    match Prepare(t, query, hasDocuments, retrieval, memory)
    case Aborted(message) => [Error(message)]
    case Ready(prompt, sources) =>
      var g := llm(prompt);
      [SourceList(sources)] + TokenEvents(g.chunks) + (if g.failure.Some? then [Error(g.failure.value)] else [Done])
  }

  /** Whether the question was answered in full, so that the exchange is remembered. */
  function Answered(t: Template, query: string, hasDocuments: bool, retrieval: Retrieval, memory: seq<string>, llm: string -> Generation): bool
  {
    match Prepare(t, query, hasDocuments, retrieval, memory)
    case Aborted(_) => false
    case Ready(prompt, _) => llm(prompt).failure.None?
  }

  /** The conversation memory of the session (`SessionMemoryManager`): message contents, user and assistant alternating. */
  class SessionMemory {
    var messages: seq<string>

    constructor()
      ensures messages == []
    {
      messages := [];
    }

    /** `save_context`: remember one exchange. */
    method SaveContext(input: string, output: string)
      modifies this
      ensures messages == old(messages) + [input, output]
    {
      messages := messages + [input, output];
    }
  }

  /** The retrieval branch of `generate_stream`: format the context, build the prompt, and collect the sources to announce. */
  method PrepareStream(t: Template, query: string, hasDocuments: bool, retrieval: Retrieval, memory: seq<string>) returns (pre: Preamble)
    ensures pre == Prepare(t, query, hasDocuments, retrieval, memory)
  {
    if !hasDocuments {
      return Ready(GeneratePrompt(t, query, "", Some(memory)), []);
    }
    match retrieval
    case RetrievalFailed(message) =>
      return Aborted(message);
    case Hits(documents, metadatas) =>
      if |documents| == 0 {
        return Ready(GeneratePrompt(t, query, "", Some(memory)), []);
      }
      var context := FormatContext(documents, metadatas);
      if context.None? {
        return Aborted(MissingSourceMessage);
      }
      var uniqueFiles := CollectUniqueFiles(metadatas);
      return Ready(GeneratePrompt(t, query, context.value, Some(memory)), SortRefs(uniqueFiles));
  }

  /** The token loop: one record per non-empty chunk, accumulating the full response. */
  method StreamTokens(chunks: seq<string>) returns (tokens: seq<Event>, fullResponse: string)
    ensures tokens == TokenEvents(chunks)
    ensures fullResponse == Concat(chunks)
  {
    tokens := [];
    fullResponse := "";
    var firstTokenSent := false;
    var i := 0;
    while i < |chunks|
      invariant 0 <= i <= |chunks|
      invariant fullResponse == Concat(chunks[..i])
      invariant tokens == TokenEvents(chunks[..i])
      invariant firstTokenSent <==> |tokens| > 0
    {
      var response := chunks[i];
      assert chunks[..i + 1][..i] == chunks[..i];
      if response != "" {
        fullResponse := fullResponse + response;
        if !firstTokenSent {
          firstTokenSent := true;
        }
        tokens := tokens + [Token(response)];
      } else {
        assert Concat(chunks[..i + 1]) == Concat(chunks[..i]) + "";
      }
      i := i + 1;
    }
    assert chunks[..i] == chunks;
  }

  /** `generate_stream`: emit the records for one question and remember the exchange once it is complete. */
  method GenerateStream(memory: SessionMemory, query: string, hasDocuments: bool, retrieval: Retrieval, llm: string -> Generation)
    returns (events: seq<Event>)
    modifies memory
    ensures events == StreamTrace(PromptTexts, query, hasDocuments, retrieval, old(memory.messages), llm)
    ensures memory.messages == if Answered(PromptTexts, query, hasDocuments, retrieval, old(memory.messages), llm)
      then old(memory.messages) + [query, Concat(llm(Prepare(PromptTexts, query, hasDocuments, retrieval, old(memory.messages)).prompt).chunks)]
      else old(memory.messages)
  {
    var pre := PrepareStream(PromptTexts, query, hasDocuments, retrieval, memory.messages);
    if pre.Aborted? {
      return [Error(pre.message)];
    }
    var generation := llm(pre.prompt);
    var tokens, fullResponse := StreamTokens(generation.chunks);
    events := [SourceList(pre.sources)] + tokens;
    if generation.failure.Some? {
      events := events + [Error(generation.failure.value)];
      return;
    }
    memory.SaveContext(query, fullResponse);
    events := events + [Done];
  }

  // ----- properties of the trace -----

  /**
    The record grammar: a `sources` record, then tokens, then exactly one
    `done` or `error` at the end; or a lone `error` when the failure came
    before anything was sent.
  */
  predicate WellFormed(events: seq<Event>)
  {
    |events| >= 1 &&
    (events[|events| - 1].Done? || events[|events| - 1].Error?) &&
    ((|events| == 1 && events[0].Error?) ||
     (|events| >= 2 && events[0].SourceList? &&
      forall i :: 1 <= i < |events| - 1 ==> events[i].Token?))
  }

  lemma StreamTraceWellFormed(t: Template, query: string, hasDocuments: bool, retrieval: Retrieval, memory: seq<string>, llm: string -> Generation)
    ensures WellFormed(StreamTrace(t, query, hasDocuments, retrieval, memory, llm))
  {
    var events := StreamTrace(t, query, hasDocuments, retrieval, memory, llm);
    match Prepare(t, query, hasDocuments, retrieval, memory)
    case Aborted(_) =>
    case Ready(prompt, _) =>
      var tokens := TokenEvents(llm(prompt).chunks);
      forall i | 1 <= i < |events| - 1
        ensures events[i].Token?
      {
        assert events[i] == tokens[i - 1];
      }
  }

  /** A `done` record is sent exactly when the question is answered, and it is the last record. */
  lemma DoneIffAnswered(t: Template, query: string, hasDocuments: bool, retrieval: Retrieval, memory: seq<string>, llm: string -> Generation)
    ensures var events := StreamTrace(t, query, hasDocuments, retrieval, memory, llm);
      (Done in events <==> Answered(t, query, hasDocuments, retrieval, memory, llm)) &&
      (Done in events ==> events[|events| - 1] == Done && Done !in events[..|events| - 1])
  {
    var events := StreamTrace(t, query, hasDocuments, retrieval, memory, llm);
    match Prepare(t, query, hasDocuments, retrieval, memory)
    case Aborted(_) =>
    case Ready(prompt, _) =>
      var tokens := TokenEvents(llm(prompt).chunks);
      var last := events[|events| - 1];
      assert events == [events[0]] + tokens + [last];
      assert events[0].SourceList?;
      assert last == Done <==> llm(prompt).failure.None?;
      assert events[..|events| - 1] == [events[0]] + tokens;
      assert Done !in [events[0]] + tokens by {
        forall i | 0 <= i < |tokens|
          ensures tokens[i] != Done
        {
        }
      }
  }

  /** Token contents concatenate to the accumulated response. */
  lemma {:induction false} TokensSpellResponse(chunks: seq<string>)
    ensures Contents(TokenEvents(chunks)) == Concat(chunks)
    decreases |chunks|
  {
    if |chunks| > 0 {
      var init := chunks[..|chunks| - 1];
      TokensSpellResponse(init);
      var t := TokenEvents(init);
      var last := chunks[|chunks| - 1];
      assert Concat(chunks) == Concat(init) + last;
      if last != "" {
        var r := t + [Token(last)];
        assert TokenEvents(chunks) == r;
        assert r[..|r| - 1] == t;
      } else {
        assert TokenEvents(chunks) == t;
        assert Concat(init) + last == Concat(init);
      }
    }
  }

  /** Contents ignore non-token records at either end. */
  lemma {:induction false} ContentsConcat(a: seq<Event>, b: seq<Event>)
    ensures Contents(a + b) == Contents(a) + Contents(b)
    decreases |b|
  {
    if |b| == 0 {
      assert a + b == a;
    } else {
      ContentsConcat(a, b[..|b| - 1]);
      assert (a + b)[..|a + b| - 1] == a + b[..|b| - 1];
    }
  }

  /** When the stream completes, the tokens sent spell exactly the response stored in memory. */
  lemma AnsweredTokensAreRemembered(t: Template, query: string, hasDocuments: bool, retrieval: Retrieval, memory: seq<string>, llm: string -> Generation)
    requires Answered(t, query, hasDocuments, retrieval, memory, llm)
    ensures Contents(StreamTrace(t, query, hasDocuments, retrieval, memory, llm)) ==
      Concat(llm(Prepare(t, query, hasDocuments, retrieval, memory).prompt).chunks)
  {
    var pre := Prepare(t, query, hasDocuments, retrieval, memory);
    var chunks := llm(pre.prompt).chunks;
    TokensSpellResponse(chunks);
    ContentsConcat([SourceList(pre.sources)], TokenEvents(chunks));
    ContentsConcat([SourceList(pre.sources)] + TokenEvents(chunks), [Done]);
    assert Contents([SourceList(pre.sources)]) == "" by {
      assert [SourceList(pre.sources)][..0] == [];
    }
    assert Contents([Done]) == "" by {
      assert [Done][..0] == [];
    }
  }

  /**
    A failure during generation replaces the final `done` by an `error`
    carrying its message: every record already sent stays as it was.
  */
  lemma FailureKeepsSentRecords(t: Template, query: string, hasDocuments: bool, retrieval: Retrieval, memory: seq<string>,
                                llm: string -> Generation, failing: string -> Generation, message: string)
    requires var p := Prepare(t, query, hasDocuments, retrieval, memory);
      p.Ready? && llm(p.prompt).failure.None? && failing(p.prompt) == Generation(llm(p.prompt).chunks, Some(message))
    ensures var ok := StreamTrace(t, query, hasDocuments, retrieval, memory, llm);
      StreamTrace(t, query, hasDocuments, retrieval, memory, failing) == ok[..|ok| - 1] + [Error(message)]
  {
    var ok := StreamTrace(t, query, hasDocuments, retrieval, memory, llm);
    assert ok[..|ok| - 1] == [SourceList(Prepare(t, query, hasDocuments, retrieval, memory).sources)] +
      TokenEvents(llm(Prepare(t, query, hasDocuments, retrieval, memory).prompt).chunks);
  }

  /** Without documents, or with no hits, the `sources` record is empty. */
  lemma NoHitsAnnounceNoSources(t: Template, query: string, hasDocuments: bool, retrieval: Retrieval, memory: seq<string>, llm: string -> Generation)
    requires !hasDocuments || (retrieval.Hits? && |retrieval.documents| == 0)
    ensures StreamTrace(t, query, hasDocuments, retrieval, memory, llm)[0] == SourceList([])
    ensures Prepare(t, query, hasDocuments, retrieval, memory).prompt == NoDocumentsPrompt(t, query)
  {
  }

  /** With hits, the `sources` record is the deduplicated, sorted source list of the retrieved metadata. */
  lemma HitsAnnounceTheirSources(t: Template, query: string, retrieval: Retrieval, memory: seq<string>, llm: string -> Generation)
    requires retrieval.Hits? && |retrieval.documents| > 0
    requires AllCited(retrieval.documents, retrieval.metadatas)
    ensures var events := StreamTrace(t, query, true, retrieval, memory, llm);
      events[0].SourceList? && StrictlySorted(events[0].sources) &&
      forall e :: e in events[0].sources <==> LastCitation(retrieval.metadatas, |retrieval.metadatas|, e)
  {
    SourcesListSpec(retrieval.metadatas);
  }

  // ----- server-sent-events framing -----

  /** One record on the wire: `data: <payload>` and a blank line. */
  function Frame(payload: string): string
  {
    "data: " + payload + "\n\n"
  }

  /** The body of the `text/event-stream` response. */
  function Wire(encode: Event -> string, events: seq<Event>): string
  {
    if |events| == 0 then "" else Frame(encode(events[0])) + Wire(encode, events[1..])
  }

  /** The payloads a reader takes from a wire. */
  function Payloads(encode: Event -> string, events: seq<Event>): (r: seq<string>)
    ensures |r| == |events|
  {
    if |events| == 0 then [] else [encode(events[0])] + Payloads(encode, events[1..])
  }

  /** The index of the first line feed in `s`, or `|s|`. */
  function FirstNewline(s: string): (r: nat)
    ensures r <= |s| && '\n' !in s[..r] && (r < |s| ==> s[r] == '\n')
  {
    if |s| == 0 then 0
    else if s[0] == '\n' then 0
    else
      var k := FirstNewline(s[1..]);
      assert s[..k + 1] == [s[0]] + s[1..][..k];
      k + 1
  }

  /** Reading a stream made only of single-line `data:` events back into their payloads. */
  function Unframe(s: string): Option<seq<string>>
    decreases |s|
  {
    if |s| == 0 then Some([])
    else if !("data: " <= s) then None
    else
      var body := s[6..];
      var k := FirstNewline(body);
      if k + 2 <= |body| && body[k..k + 2] == "\n\n" then
        match Unframe(body[k + 2..])
        case None => None
        case Some(rest) => Some([body[..k]] + rest)
      else None
  }

  /** A reader recovers every payload, in order, provided no payload contains a line feed (as `json.dumps` output does not). */
  lemma {:induction false} UnframeWire(encode: Event -> string, events: seq<Event>)
    requires forall i :: 0 <= i < |events| ==> '\n' !in encode(events[i])
    ensures Unframe(Wire(encode, events)) == Some(Payloads(encode, events))
    decreases |events|
  {
    if |events| > 0 {
      var p := encode(events[0]);
      var rest := Wire(encode, events[1..]);
      var s := Wire(encode, events);
      assert s == "data: " + (p + "\n\n" + rest);
      var body := s[6..];
      assert body == p + "\n\n" + rest;
      FirstNewlineAfter(p, "\n\n" + rest);
      assert body[|p|..|p| + 2] == "\n\n";
      assert body[|p| + 2..] == rest;
      assert body[..|p|] == p;
      UnframeWire(encode, events[1..]);
    }
  }

  lemma {:induction false} FirstNewlineAfter(p: string, t: string)
    requires '\n' !in p && |t| > 0 && t[0] == '\n'
    ensures FirstNewline(p + t) == |p|
    decreases |p|
  {
    if |p| > 0 {
      assert (p + t)[1..] == p[1..] + t;
      assert p[0] in p;
      FirstNewlineAfter(p[1..], t);
    }
  }
}
