/** The text the language model sees (app.py, and the same
    `format_docs_with_sources` in main.py): retrieved chunks rendered as
    labelled excerpts, the conversation rendered as a transcript, and the
    fixed instruction template around them. */
module Prompt {
  import opened Text
  import opened Documents
  import opened History

  const DefaultSource := "unknown.pdf"
  const DefaultChunk := "n/a"
  const ExcerptSeparator := "\n\n"

  /** `doc.metadata.get(key, default)`, printed. */
  function MetaOr(d: Doc, key: string, default: string): string {
    if key in d.metadata then Render(d.metadata[key]) else default
  }

  /** The label line `[Source: s, Chunk: c]` and its newline. */
  function Header(d: Doc): string {
    "[Source: " + MetaOr(d, "source_file", DefaultSource) + ", Chunk: " + MetaOr(d, "chunk", DefaultChunk) + "]\n"
  }

  /** One labelled excerpt: the label, then the stripped page content. */
  function Excerpt(d: Doc): string {
    Header(d) + Strip(d.pageContent)
  }

  /** The `output` list the loop builds: one excerpt per document, in
      retrieval order. */
  function Excerpts(docs: seq<Doc>): (r: seq<string>)
    ensures |r| == |docs|
    ensures forall i :: 0 <= i < |docs| ==> r[i] == Excerpt(docs[i])
  {
    if docs == [] then [] else Excerpts(docs[..|docs| - 1]) + [Excerpt(docs[|docs| - 1])]
  }

  /** `format_docs_with_sources(docs)`. */
  function FormatDocsWithSources(docs: seq<Doc>): string {
    Join(ExcerptSeparator, Excerpts(docs))
  }

  /** No documents render as the empty context. */
  lemma FormatDocsEmpty()
    ensures FormatDocsWithSources([]) == ""
  {
  }

  /** Each further document adds a blank line and its excerpt at the end:
      the excerpts appear once each, in input order. */
  lemma FormatDocsAppend(docs: seq<Doc>, d: Doc)
    ensures FormatDocsWithSources(docs + [d]) ==
      if docs == [] then Excerpt(d) else FormatDocsWithSources(docs) + "\n\n" + Excerpt(d)
  {
    assert (docs + [d])[..|docs|] == docs;
  }

  /** A document without `source_file` or `chunk` metadata is labelled with
      `unknown.pdf` and `n/a`. */
  lemma ExcerptDefaults(content: string, metadata: map<string, MetaValue>)
    requires "source_file" !in metadata && "chunk" !in metadata
    ensures Excerpt(Doc(content, metadata)) == "[Source: " + DefaultSource + ", Chunk: " + DefaultChunk + "]\n" + Strip(content)
  {
    var d := Doc(content, metadata);
    assert MetaOr(d, "source_file", DefaultSource) == "unknown.pdf";
    assert MetaOr(d, "chunk", DefaultChunk) == "n/a";
  }

  /** The body of an excerpt is the page content without surrounding
      whitespace, placed right after the label's newline. */
  lemma ExcerptBodyIsTrimmed(d: Doc)
    ensures Excerpt(d)[..|Header(d)|] == Header(d)
    ensures Excerpt(d)[|Header(d)| - 1] == '\n'
    ensures var body := Excerpt(d)[|Header(d)|..];
      body == Strip(d.pageContent) && (body == [] || (!IsSpace(body[0]) && !IsSpace(body[|body| - 1])))
  {
  }

  /** One transcript line. */
  function TranscriptLine(e: Entry): string {
    match e
    case Human(c) => "Human: " + c
    case AI(c) => "AI: " + c
  }

  /** The `formatted_history` list: one line per entry, in order. */
  function TranscriptLines(history: seq<Entry>): (r: seq<string>)
    ensures |r| == |history|
    ensures forall i :: 0 <= i < |history| ==> r[i] == TranscriptLine(history[i])
  {
    if history == [] then []
    else TranscriptLines(history[..|history| - 1]) + [TranscriptLine(history[|history| - 1])]
  }

  /** `format_chat_history(history)`. */
  function FormatChatHistory(history: seq<Entry>): string {
    Join("\n", TranscriptLines(history))
  }

  /** When no message spans several lines, the transcript splits back into
      exactly one `Human: ` or `AI: ` line per entry, in order. */
  lemma TranscriptOneLinePerEntry(history: seq<Entry>)
    requires history != []
    requires forall i :: 0 <= i < |history| ==> '\n' !in history[i].content
    ensures Split(FormatChatHistory(history), '\n') == TranscriptLines(history)
    ensures |Split(FormatChatHistory(history), '\n')| == |history|
  {
    var lines := TranscriptLines(history);
    forall i | 0 <= i < |lines|
      ensures '\n' !in lines[i]
    {
      assert '\n' !in TranscriptLine(history[i]);
    }
    SplitJoin(lines, '\n');
  }

  /** One more entry adds a newline and its line at the end of the
      transcript. */
  lemma TranscriptAppend(history: seq<Entry>, e: Entry)
    ensures FormatChatHistory(history + [e]) ==
      if history == [] then TranscriptLine(e) else FormatChatHistory(history) + "\n" + TranscriptLine(e)
  {
    var h := history + [e];
    assert h[..|h| - 1] == history;
    assert TranscriptLines(h) == TranscriptLines(history) + [TranscriptLine(e)];
    JoinAppend("\n", TranscriptLines(history), TranscriptLine(e));
  }

  /** A chat turn adds its question and answer lines at the end of the
      transcript and leaves the earlier lines as they were. */
  lemma TranscriptAfterTurn(history: seq<Entry>, question: string, answer: string)
    ensures FormatChatHistory(history + [Human(question), AI(answer)]) ==
      (if history == [] then "" else FormatChatHistory(history) + "\n")
      + ("Human: " + question) + "\n" + ("AI: " + answer)
  {
    var h1 := history + [Human(question)];
    if history == [] {
      assert "" + ("Human: " + question) == "Human: " + question;
    }
    assert history + [Human(question), AI(answer)] == h1 + [AI(answer)];
    TranscriptAppend(history, Human(question));
    TranscriptAppend(h1, AI(answer));
  }

  /** A template with three placeholders: the text before `{context}`,
      between `{context}` and `{chat_history}`, between `{chat_history}`
      and `{question}`, and after `{question}`. */
  datatype Template = Template(head: string, middle: string, tail: string, end: string)

  /** The service's template, cut at its placeholders. */
  const AnswerTemplate := Template(
    "\nYou are a helpful assistant.\n"
    + "Your primary goal is to answer questions ONLY based on the provided context.\n"
    + "Do NOT make up information or introduce external knowledge.\n"
    + "If the answer cannot be found in the provided context, state \"I cannot answer this question based on the provided documents.\"\n"
    + "\nHere are some relevant excerpts from official sources:\n",
    "\n\nHere is the conversation history:\n",
    "\n\nBased on the provided context and conversation history, answer the following question.\n"
    + "Provide a detailed, comprehensive, and thorough answer, elaborating on all relevant points found in the documents.\n"
    + "Organize your response in clear, well-structured paragraphs or bullet points to ensure it is informative.\n"
    + "Unless a specific word count is mentioned in the question, aim for an answer length of approximately 500 words.\n",
    "\n")

  /** The variables `chain.invoke` fills the template with: `context`,
      `chat_history` and `question`. */
  datatype Variables = Variables(context: string, chatHistory: string, question: string)

  /** `format` on a template: each placeholder replaced by its variable. */
  function Fill(t: Template, v: Variables): string {
    t.head + v.context + t.middle + v.chatHistory + t.tail + v.question + t.end
  }

  /** The prompt the model sees. */
  function BuildPrompt(v: Variables): string {
    Fill(AnswerTemplate, v)
  }

  /** Each variable lands in its own slot, between the fixed pieces of the
      template and in the order context, history, question. */
  lemma FillSlots(t: Template, v: Variables)
    ensures var p, a := Fill(t, v), |t.head|;
      var b := a + |v.context| + |t.middle|;
      var c := b + |v.chatHistory| + |t.tail|;
      && |p| == c + |v.question| + |t.end|
      && p[..a] == t.head && p[a..a + |v.context|] == v.context
      && p[a + |v.context|..b] == t.middle && p[b..b + |v.chatHistory|] == v.chatHistory
      && p[b + |v.chatHistory|..c] == t.tail && p[c..c + |v.question|] == v.question
      && p[c + |v.question|..] == t.end
  {
    var p := Fill(t, v);
    var p1 := t.head + v.context;
    var p2 := p1 + t.middle;
    var p3 := p2 + v.chatHistory;
    var p4 := p3 + t.tail;
    var p5 := p4 + v.question;
    assert p == p5 + t.end;
    assert p[..|p5|] == p5;
    assert p5[..|p4|] == p4;
    assert p4[..|p3|] == p3;
    assert p3[..|p2|] == p2;
    assert p2[..|p1|] == p1;
  }
}
