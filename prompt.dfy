/**
  How the chat endpoint turns retrieved chunks and conversation memory into the
  prompt sent to the language model (`format_context` and `generate_prompt` in
  `backend/api.py`).

  Retrieved metadata is a string-to-string map (the indexer stores only strings
  under the keys read here); the conversation memory is the list of message
  contents, user and assistant alternating.
*/
module Prompt {
  import opened Common
  import opened Strings

  type Meta = map<string, string>

  // ----- format_context -----

  /** The citation block for one retrieved chunk. */
  function Block(source: string, chunk: string): string
  {
    "[Source: " + source + "]:\n" + chunk
  }

  /** The number of (chunk, metadata) pairs `zip` produces. */
  function Paired(chunks: seq<string>, metas: seq<Meta>): nat
  {
    if |chunks| <= |metas| then |chunks| else |metas|
  }

  /** Every zipped metadata names its source (otherwise `meta['source']` raises KeyError). */
  predicate AllCited(chunks: seq<string>, metas: seq<Meta>)
  {
    forall i :: 0 <= i < Paired(chunks, metas) ==> "source" in metas[i]
  }

  /** The citation blocks of the first `n` pairs. */
  function Blocks(chunks: seq<string>, metas: seq<Meta>, n: nat): (r: seq<string>)
    requires n <= Paired(chunks, metas) && AllCited(chunks, metas)
    ensures |r| == n
  {
    if n == 0 then [] else Blocks(chunks, metas, n - 1) + [Block(metas[n - 1]["source"], chunks[n - 1])]
  }

  /** What `format_context` returns, or None when it raises KeyError. */
  function FormattedContext(chunks: seq<string>, metas: seq<Meta>): Option<string>
  {
    if AllCited(chunks, metas) then Some(Join("\n\n", Blocks(chunks, metas, Paired(chunks, metas))))
    else None
  }

  /** `format_context`: one citation block per zipped pair, joined by blank lines. */
  method FormatContext(chunks: seq<string>, metas: seq<Meta>) returns (r: Option<string>)
    ensures r.None? <==> exists i :: 0 <= i < Paired(chunks, metas) && "source" !in metas[i]
    ensures r.Some? ==> r == FormattedContext(chunks, metas)
  {
    var formatted: seq<string> := [];
    var i := 0;
    while i < Paired(chunks, metas)
      invariant 0 <= i <= Paired(chunks, metas)
      invariant |formatted| == i
      invariant forall k :: 0 <= k < i ==> "source" in metas[k]
      invariant forall k :: 0 <= k < i ==> formatted[k] == Block(metas[k]["source"], chunks[k])
    {
      var meta := metas[i];
      if "source" !in meta {
        return None;
      }
      formatted := formatted + [Block(meta["source"], chunks[i])];
      i := i + 1;
    }
    BlocksAre(chunks, metas, i, formatted);
    return Some(Join("\n\n", formatted));
  }

  lemma {:induction false} BlocksAre(chunks: seq<string>, metas: seq<Meta>, n: nat, blocks: seq<string>)
    requires n <= Paired(chunks, metas) && AllCited(chunks, metas) && |blocks| == n
    requires forall k :: 0 <= k < n ==> blocks[k] == Block(metas[k]["source"], chunks[k])
    ensures Blocks(chunks, metas, n) == blocks
  {
    if n > 0 {
      BlocksAre(chunks, metas, n - 1, blocks[..n - 1]);
      assert blocks == blocks[..n - 1] + [blocks[n - 1]];
    }
  }

  /** The formatted context is empty exactly when there is nothing to zip. */
  lemma FormattedContextEmptyIff(chunks: seq<string>, metas: seq<Meta>)
    requires AllCited(chunks, metas)
    ensures FormattedContext(chunks, metas) == Some("") <==> |chunks| == 0 || |metas| == 0
  {
    var blocks := Blocks(chunks, metas, Paired(chunks, metas));
    JoinEmptyIff("\n\n", blocks);
    if |blocks| == 1 {
      assert |blocks[0]| > 0 by {
        assert blocks[0] == Block(metas[0]["source"], chunks[0]);
      }
    }
  }

  /** `zip` stops at the shorter list: surplus chunks or metadata do not matter. */
  lemma {:induction false} FormattedContextTruncates(chunks: seq<string>, metas: seq<Meta>)
    ensures var n := Paired(chunks, metas);
      FormattedContext(chunks, metas) == FormattedContext(chunks[..n], metas[..n])
  {
    var n := Paired(chunks, metas);
    assert Paired(chunks[..n], metas[..n]) == n;
    if AllCited(chunks, metas) {
      assert AllCited(chunks[..n], metas[..n]);
      BlocksPrefix(chunks, metas, n);
    } else {
      var i :| 0 <= i < n && "source" !in metas[i];
      assert metas[..n][i] == metas[i];
    }
  }

  lemma {:induction false} BlocksPrefix(chunks: seq<string>, metas: seq<Meta>, n: nat)
    requires n == Paired(chunks, metas) && AllCited(chunks, metas)
    ensures Paired(chunks[..n], metas[..n]) == n && AllCited(chunks[..n], metas[..n])
    ensures Blocks(chunks[..n], metas[..n], n) == Blocks(chunks, metas, n)
  {
    var b := Blocks(chunks, metas, n);
    forall k | 0 <= k < n
      ensures b[k] == Block(metas[..n][k]["source"], chunks[..n][k])
    {
      BlockAt(chunks, metas, n, k);
    }
    BlocksAre(chunks[..n], metas[..n], n, b);
  }

  /** The `k`-th block cites the `k`-th metadata's source over the `k`-th chunk. */
  lemma {:induction false} BlockAt(chunks: seq<string>, metas: seq<Meta>, n: nat, k: nat)
    requires n <= Paired(chunks, metas) && AllCited(chunks, metas) && k < n
    ensures Blocks(chunks, metas, n)[k] == Block(metas[k]["source"], chunks[k])
  {
    if k < n - 1 {
      BlockAt(chunks, metas, n - 1, k);
    }
  }

  // ----- conversation history -----

  /** One remembered exchange as the prompt shows it. */
  function Turn(user: string, assistant: string): string
  {
    "User: " + user + "\nAssistant: " + assistant
  }

  /** The turns formed from messages (0,1), (2,3), ...; an unpaired last message is dropped. */
  function Turns(messages: seq<string>): (r: seq<string>)
    ensures |r| == |messages| / 2
    decreases |messages|
  {
    if |messages| < 2 then [] else [Turn(messages[0], messages[1])] + Turns(messages[2..])
  }

  /** The history pairing loop of `generate_prompt`. */
  method PairHistory(messages: seq<string>) returns (formatted: seq<string>)
    ensures formatted == Turns(messages)
  {
    formatted := [];
    var i := 0;
    while i < |messages|
      invariant 0 <= i <= |messages| + 1 && i % 2 == 0
      invariant i <= |messages| ==> Turns(messages) == formatted + Turns(messages[i..])
      invariant i > |messages| ==> formatted == Turns(messages)
      decreases |messages| - i
    {
      if i + 1 < |messages| {
        formatted := formatted + [Turn(messages[i], messages[i + 1])];
        assert messages[i..][2..] == messages[i + 2..];
      }
      i := i + 2;
    }
  }

  /** Turn `k` pairs message `2k` with message `2k + 1`. */
  lemma {:induction false} TurnAt(messages: seq<string>, k: nat)
    requires k < |messages| / 2
    ensures Turns(messages)[k] == Turn(messages[2 * k], messages[2 * k + 1])
    decreases k
  {
    if k > 0 {
      TurnAt(messages[2..], k - 1);
    }
  }

  /** Remembering one more exchange adds exactly one turn at the end (when no message is unpaired). */
  lemma {:induction false} TurnsAppend(messages: seq<string>, user: string, assistant: string)
    requires |messages| % 2 == 0
    ensures Turns(messages + [user, assistant]) == Turns(messages) + [Turn(user, assistant)]
    decreases |messages|
  {
    if |messages| >= 2 {
      assert (messages + [user, assistant])[2..] == messages[2..] + [user, assistant];
      TurnsAppend(messages[2..], user, assistant);
    } else {
      assert messages == [];
    }
  }

  /** The `chat_history` section: empty without messages, otherwise a header and the turns. */
  function ChatHistory(messages: seq<string>): string
  {
    if |messages| == 0 then "" else "\nPrevious conversation:\n" + Join("\n\n", Turns(messages))
  }

  // ----- generate_prompt -----

  /**
    The fixed wording of the two prompt templates, cut where the query, the
    context and the history are inserted. The properties below hold whatever
    the wording; `PromptTexts` is the wording of the program.
  */
  datatype Template = Template(
    noDocumentsHead: string,
    noDocumentsTail: string,
    mainHead: string,
    mainBeforeContext: string,
    mainBeforeQuery: string,
    mainTail: string)

  const PromptTexts: Template := Template(
    // without context: up to the quoted question
    "You are a helpful AI assistant. The user asked: \"",
    // without context: after the quoted question
    "\"\n\nSince no documents are currently available in the knowledge base, I cannot provide specific information from uploaded documents. \n\n"
      + "Please respond with: \"I don't have access to any documents in the knowledge base at the moment. To get started, please upload some documents using the 'Upload File' button in the sidebar, then click 'Refresh Database' to process them. Once documents are available, I'll be able to answer questions based on their content.\"\n\n"
      + "Keep the response exactly as specified, without any additional text or citations.",
    // with context: up to the conversation history
    "You are a helpful geologist researcher. You have access to the following:\n\n        1. Previous Conversation History:\n        ",
    // between the history and the document excerpts
    "\n\n        2. Relevant Document Excerpts:\n        ",
    // between the excerpts and the question
    "\n\n        Current Question: ",
    // after the question: instructions and answer format
    "\n\n        Instructions:\n"
      + "        1. Use the provided document excerpts to answer the question.\n"
      + "        2. If the question is about previous conversation, refer to the conversation history.\n"
      + "        3. Always cite your sources when applicable using [Source: filename] format.\n"
      + "        4. If you don't know or can't find the answer in the provided document excerpts, say so.\n"
      + "        5. Keep track of the conversation context when answering follow-up questions.\n"
      + "        6. Do not give answer in markdown format.\n"
      + "        7. If the question cannot be answered using the provided document excerpts, state that you cannot find the answer in the documents and do not provide an answer from your general knowledge.\n"
      + "        8. Your answer must be solely based on the 'Relevant Document Excerpts'. Do not use any external or prior knowledge.\n"
      + "\n\n        Answer Format:\n"
      + "        1. Detailed technical answer with inline citations when applicable\n"
      + "\n        Answer: ")

  /** The fixed reply instruction used when there is no context. */
  function NoDocumentsPrompt(t: Template, query: string): string
  {
    t.noDocumentsHead + query + t.noDocumentsTail
  }

  /** The retrieval-augmented prompt. */
  function MainPrompt(t: Template, query: string, context: string, chatHistory: string): string
  {
    t.mainHead + chatHistory + t.mainBeforeContext + context + t.mainBeforeQuery + query + t.mainTail
  }

  /**
    `generate_prompt` as written: the main prompt's `return` sits inside the
    `if memory:` block, so with context and no memory object it returns None.
    `memory` is None for Python's None, else the remembered message contents.
  */
  function GeneratePromptAsWritten(t: Template, query: string, context: string, memory: Option<seq<string>>): Option<string>
  {
    if context == "" then Some(NoDocumentsPrompt(t, query))
    else if memory.None? then None
    else Some(MainPrompt(t, query, context, ChatHistory(memory.value)))
  }

  /** `generate_prompt` as evidently intended: without memory the history section is simply empty. */
  function GeneratePrompt(t: Template, query: string, context: string, memory: Option<seq<string>>): string
  {
    if context == "" then NoDocumentsPrompt(t, query)
    else MainPrompt(t, query, context, if memory.Some? then ChatHistory(memory.value) else "")
  }

  /** Context given but no memory object: the function declared to return a prompt returns None. */
  lemma GeneratePromptAsWrittenDropsPrompt()
    ensures GeneratePromptAsWritten(PromptTexts, "q", "c", None) == None
    ensures GeneratePrompt(PromptTexts, "q", "c", None) != ""
  {
  }

  /** Whenever a memory object is passed, as every endpoint does, both definitions give the same prompt. */
  lemma GeneratePromptAgrees(t: Template, query: string, context: string, memory: Option<seq<string>>)
    ensures GeneratePromptAsWritten(t, query, context, memory).None? <==> context != "" && memory.None?
    ensures memory.Some? || context == "" ==> GeneratePromptAsWritten(t, query, context, memory) == Some(GeneratePrompt(t, query, context, memory))
  {
  }

  /**
    The prompt takes the main template when there is context; without context
    it is the fixed reply instruction whatever the memory holds.
  */
  lemma GeneratePromptBranches(t: Template, query: string, context: string, memory: Option<seq<string>>)
    ensures context != "" ==> t.mainHead <= GeneratePrompt(t, query, context, memory)
    ensures context == "" ==> t.noDocumentsHead <= GeneratePrompt(t, query, context, memory)
    ensures context == "" ==> GeneratePrompt(t, query, context, memory) == GeneratePrompt(t, query, context, None)
  {
    var history := if memory.Some? then ChatHistory(memory.value) else "";
    if context == "" {
      PrefixExtend(t.noDocumentsHead, t.noDocumentsHead, query);
      PrefixExtend(t.noDocumentsHead, t.noDocumentsHead + query, t.noDocumentsTail);
    } else {
      var x := t.mainHead;
      PrefixExtend(t.mainHead, x, history);
      x := x + history;
      PrefixExtend(t.mainHead, x, t.mainBeforeContext);
      x := x + t.mainBeforeContext;
      PrefixExtend(t.mainHead, x, context);
      x := x + context;
      PrefixExtend(t.mainHead, x, t.mainBeforeQuery);
      x := x + t.mainBeforeQuery;
      PrefixExtend(t.mainHead, x, query);
      x := x + query;
      PrefixExtend(t.mainHead, x, t.mainTail);
    }
  }

  /** Every prompt quotes the user's question. */
  lemma GeneratePromptQuotesQuery(t: Template, query: string, context: string, memory: Option<seq<string>>)
    ensures Contains(GeneratePrompt(t, query, context, memory), query)
  {
    var p := GeneratePrompt(t, query, context, memory);
    if context == "" {
      OccursAtEnd(t.noDocumentsHead, query);
      OccursAtExtend(t.noDocumentsHead + query, t.noDocumentsTail, query, |t.noDocumentsHead|);
      ContainsIff(p, query);
    } else {
      var history := if memory.Some? then ChatHistory(memory.value) else "";
      var before := t.mainHead + history + t.mainBeforeContext + context + t.mainBeforeQuery;
      OccursAtEnd(before, query);
      OccursAtExtend(before + query, t.mainTail, query, |before|);
      ContainsIff(p, query);
    }
  }

  /** With context, the prompt carries the context and every remembered turn. */
  lemma GeneratePromptCarriesContextAndTurns(t: Template, query: string, context: string, messages: seq<string>)
    requires context != ""
    ensures Contains(GeneratePrompt(t, query, context, Some(messages)), context)
    ensures forall k :: 0 <= k < |messages| / 2 ==>
      Contains(GeneratePrompt(t, query, context, Some(messages)), Turn(messages[2 * k], messages[2 * k + 1]))
  {
    var p := GeneratePrompt(t, query, context, Some(messages));
    var history := ChatHistory(messages);
    var before := t.mainHead + history + t.mainBeforeContext;
    OccursAtEnd(before, context);
    OccursAtExtend(before + context, t.mainBeforeQuery, context, |before|);
    OccursAtExtend(before + context + t.mainBeforeQuery, query, context, |before|);
    OccursAtExtend(before + context + t.mainBeforeQuery + query, t.mainTail, context, |before|);
    ContainsIff(p, context);
    forall k | 0 <= k < |messages| / 2
      ensures Contains(p, Turn(messages[2 * k], messages[2 * k + 1]))
    {
      PromptCarriesTurn(t, query, context, messages, k);
    }
  }

  lemma PromptCarriesTurn(t: Template, query: string, context: string, messages: seq<string>, k: nat)
    requires context != "" && k < |messages| / 2
    ensures Contains(GeneratePrompt(t, query, context, Some(messages)), Turn(messages[2 * k], messages[2 * k + 1]))
  {
    var p := GeneratePrompt(t, query, context, Some(messages));
    TurnAt(messages, k);
    var turns := Turns(messages);
    var turn := turns[k];
    JoinContainsPart("\n\n", turns, k);
    var joined := Join("\n\n", turns);
    var j :| OccursAt(joined, turn, j);
    var header := "\nPrevious conversation:\n";
    OccursAtShift(header, joined, turn, j);
    OccursAtShift(t.mainHead, header + joined, turn, |header| + j);
    assert t.mainHead + (header + joined) == t.mainHead + ChatHistory(messages);
    var i := |t.mainHead| + |header| + j;
    OccursAtExtend(t.mainHead + ChatHistory(messages), t.mainBeforeContext, turn, i);
    OccursAtExtend(t.mainHead + ChatHistory(messages) + t.mainBeforeContext, context, turn, i);
    OccursAtExtend(t.mainHead + ChatHistory(messages) + t.mainBeforeContext + context, t.mainBeforeQuery, turn, i);
    OccursAtExtend(t.mainHead + ChatHistory(messages) + t.mainBeforeContext + context + t.mainBeforeQuery, query, turn, i);
    OccursAtExtend(t.mainHead + ChatHistory(messages) + t.mainBeforeContext + context + t.mainBeforeQuery + query, t.mainTail, turn, i);
    ContainsIff(p, turn);
  }
}
