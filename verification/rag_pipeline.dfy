/** The retrieval pipeline (`RAGPipeline`) as a state machine over an optional
    vector store and the flat chunk list of the latest ingestion, with the
    downstream tasks that refuse to consult the text generator when there is no
    context. The embedding model and the text generator are foreign and enter
    as parameters. */
module RagPipeline {
  import opened Wrappers
  import opened Text
  import opened Decimal
  import opened Records
  import opened Chunking
  import opened Knn
  import opened VectorIndex
  import opened ContextAssembly
  import opened Llm

  const ChunkMaxChars: int := 800
  const ChunkOverlap: int := 200
  const AnswerContextChars: int := 3500
  const GlobalContextChars: int := 4000

  const UploadFirst: string := "Please upload and index PDFs first."
  const NothingRelevant: string := "I couldn't find relevant content in your notes for this question."
  const NoDocuments: string := "No documents indexed yet or no relevant context found."
  const DummyHeader: string := "Top relevant context from your notes:\n\n"
  const DummyFooter: string := "\n\n\U{1F449} This is raw context. Switch to LLM mode for a proper answer."

  /** The embedding model: one vector per text. */
  datatype Encoder = Encoder(dim: nat, embed: string -> Vector)

  /** The embedding model's contract: every vector has the model's dimension. */
  ghost predicate Encodes(enc: Encoder) {
    forall t :: |enc.embed(t)| == enc.dim
  }

  /** The text generator: prompt and token budget in, raw output out (which
      may begin with the prompt). */
  type Generator = (string, nat) -> string

  /** An uploaded file after text extraction. */
  datatype UploadedFile = UploadedFile(name: string, pages: seq<Page>)

  datatype State = State(store: Option<Store<Record>>, chunks: seq<Record>)

  /** What every reachable state satisfies: the store's vectors have its
      dimension, and its metadata is the chunk list, position by position. */
  predicate Valid(s: State) {
    s.store.Some? ==>
      WellShaped(s.store.value) && Aligned(s.store.value) && s.store.value.metadata == s.chunks
  }

  /** A new pipeline: no store, no chunks. */
  function Init(): (s: State)
    ensures Valid(s)
  {
    State(None, [])
  }

  /** One file's chunks, each tagged with the file name. */
  function FileRecords(f: UploadedFile): seq<Record> {
    var cs := ChunkText(f.pages, ChunkMaxChars, ChunkOverlap);
    seq(|cs|, i requires 0 <= i < |cs| => Record(cs[i].chunkId, cs[i].pageNum, cs[i].text, f.name))
  }

  /** The chunks of all files, in upload order. */
  function AllRecords(files: seq<UploadedFile>): seq<Record> {
    if |files| == 0 then [] else FileRecords(files[0]) + AllRecords(files[1..])
  }

  function Texts(recs: seq<Record>): (r: seq<string>)
    ensures |r| == |recs| && forall i :: 0 <= i < |recs| ==> r[i] == recs[i].text
  {
    seq(|recs|, i requires 0 <= i < |recs| => recs[i].text)
  }

  /** The embedding model applied to a batch. */
  function EncodeAll(enc: Encoder, texts: seq<string>): (r: seq<Vector>)
    ensures |r| == |texts| && forall i :: 0 <= i < |texts| ==> r[i] == enc.embed(texts[i])
  {
    seq(|texts|, i requires 0 <= i < |texts| => enc.embed(texts[i]))
  }

  /** `ingest_pdfs`: a full rebuild. The previous state is discarded; the new
      chunk list is every file's chunks in upload order, and a fresh store
      holds one vector and one metadata entry per chunk, in chunk order. */
  function Ingest(s: State, files: seq<UploadedFile>, enc: Encoder): (r: State)
    requires Encodes(enc)
    ensures Valid(r)
    ensures r.chunks == AllRecords(files)
    ensures r.store.Some? && r.store.value.dim == enc.dim && r.store.value.isTrained
    ensures forall i :: 0 <= i < |r.chunks| ==> r.store.value.vectors[i] == enc.embed(r.chunks[i].text)
  {
    var recs := AllRecords(files);
    var embeddings := EncodeAll(enc, Texts(recs));
    var added := AddEmbeddings(NewStore(enc.dim), embeddings, recs);
    State(Some(added.value), recs)
  }

  /** `retrieve_context`: no store means no results; otherwise the store's
      search for the query's vector. */
  function Retrieve(s: State, enc: Encoder, query: string, topK: int): (r: Result<seq<Retrieved<Record>>, StoreError>)
    requires Valid(s)
    ensures s.store.None? ==> r == Success([])
    ensures r.Success? && s.store.Some? ==> |r.value| <= topK
    ensures r.Success? ==> forall i :: 0 <= i < |r.value| ==> r.value[i].meta in s.chunks
    ensures r.Success? ==> forall i, j :: 0 <= i < j < |r.value| ==> r.value[i].distance <= r.value[j].distance
    ensures s.store.Some? && topK >= 1 && |enc.embed(query)| == s.store.value.dim ==>
              r.Success? && |r.value| == Min(topK, |s.chunks|)
  {
    if s.store.None? then Success([])
    else Search(s.store.value, enc.embed(query), topK)
  }

  function Metas(res: seq<Retrieved<Record>>): (r: seq<Record>)
    ensures |r| == |res| && forall i :: 0 <= i < |res| ==> r[i] == res[i].meta
  {
    seq(|res|, i requires 0 <= i < |res| => res[i].meta)
  }

  /** `build_context_string`: the retrieved records packed with the shared
      rule; empty when nothing was retrieved. */
  function BuildContextString(s: State, enc: Encoder, query: string, topK: int, maxChars: int): (r: Result<string, StoreError>)
    requires Valid(s)
    ensures s.store.None? ==> r == Success("")
    ensures r.Success? <==> Retrieve(s, enc, query, topK).Success?
    ensures r.Success? ==> r.value == PackContext(Metas(Retrieve(s, enc, query, topK).value), maxChars)
  {
    var res :- Retrieve(s, enc, query, topK);
    if |res| == 0 then Success("") else Success(PackContext(Metas(res), maxChars))
  }

  /** `build_global_context`: the ingested chunks, in ingestion order, packed
      with the same rule; the early return for no chunks agrees with it. */
  function BuildGlobalContext(s: State, maxChars: int): (r: string)
    ensures r == PackContext(s.chunks, maxChars)
    ensures r == "" <==> |s.chunks| == 0 || |Line(s.chunks[0])| > maxChars
  {
    PackContextEmpty(s.chunks, maxChars);
    if |s.chunks| == 0 then "" else PackContext(s.chunks, maxChars)
  }

  function Snippets(res: seq<Retrieved<Record>>): (r: seq<string>)
    ensures |r| == |res| && forall i :: 0 <= i < |res| ==> r[i] == Snippet(res[i].meta)
  {
    seq(|res|, i requires 0 <= i < |res| => Snippet(res[i].meta))
  }

  /** `answer_question_dummy`: the fixed message when nothing is retrieved,
      otherwise every result's snippet between a header and a footer. */
  function AnswerDummy(s: State, enc: Encoder, query: string, topK: int): (r: Result<string, StoreError>)
    requires Valid(s)
    ensures s.store.None? ==> r == Success(NoDocuments)
    ensures r.Success? <==> Retrieve(s, enc, query, topK).Success?
    ensures r.Success? ==> (r.value == NoDocuments <==> |Retrieve(s, enc, query, topK).value| == 0)
    ensures r.Success? && |Retrieve(s, enc, query, topK).value| > 0 ==>
              StartsWith(r.value, DummyHeader + Snippet(Retrieve(s, enc, query, topK).value[0].meta))
  {
    var res :- Retrieve(s, enc, query, topK);
    if |res| == 0 then Success(NoDocuments)
    else
      DummyAnswerShape(Snippets(res));
      Success(DummyHeader + Join(Snippets(res), Separator) + DummyFooter)
  }

  lemma DummyAnswerShape(snippets: seq<string>)
    requires |snippets| > 0
    ensures var answer := DummyHeader + Join(snippets, Separator) + DummyFooter;
            answer != NoDocuments && StartsWith(answer, DummyHeader + snippets[0])
  {
    var joined := Join(snippets, Separator);
    StartsWithInside(DummyHeader, joined, DummyFooter, snippets[0]);
    var answer := DummyHeader + joined + DummyFooter;
    assert answer[0] == DummyHeader[0] == 'T';
    assert NoDocuments[0] == 'N';
  }

  /** `LocalLLM.generate`: the generator's output for the prompt, echo-stripped. */
  function Generate(llm: Generator, prompt: string, maxNewTokens: nat): (r: string)
    ensures Trimmed(r) && IsInfix(r, llm(prompt, maxNewTokens))
    ensures var raw := llm(prompt, maxNewTokens);
            StartsWith(raw, prompt) ==> r == Strip(raw[|prompt|..])
    ensures var raw := llm(prompt, maxNewTokens);
            !StartsWith(raw, prompt) ==> r == Strip(raw)
  {
    StripEcho(prompt, llm(prompt, maxNewTokens))
  }

  /** A task prompt: instructions before and after the context. */
  function Embed(before: string, context: string, after: string): (p: string)
    ensures IsInfix(context, p)
  {
    assert (before + context + after)[|before|..][..|context|] == context;
    before + context + after
  }

  /** The task prompts (instruction wording abbreviated here) around the
      context, with the question or the requested count. */
  function AnswerPrompt(context: string, query: string): string {
    Embed("\nAnswer only from the context.\n\nContext:\n", context, "\n\nQuestion: " + query + "\n\nAnswer:\n")
  }

  function SummaryPrompt(context: string): string {
    Embed("\nSummarize the notes.\n\nContext:\n", context, "\n\nSummary:\n")
  }

  function McqPrompt(context: string, numQuestions: int): string {
    Embed("\nCreate " + IntToString(numQuestions) + " MCQs.\n\nContext:\n", context, "\n\nMCQs:\n")
  }

  function FlashcardPrompt(context: string, numCards: int): string {
    Embed("\nCreate " + IntToString(numCards) + " flashcards.\n\nContext:\n", context, "\n\nFlashcards:\n")
  }

  /** `answer_question_llm`. */
  function AnswerLlm(s: State, enc: Encoder, llm: Generator, query: string, topK: int): (r: Result<string, StoreError>)
    requires Valid(s)
    ensures s.store.None? ==> r == Success(UploadFirst)
    ensures s.store.Some? ==> (r.Success? <==> BuildContextString(s, enc, query, topK, AnswerContextChars).Success?)
    ensures s.store.Some? && BuildContextString(s, enc, query, topK, AnswerContextChars) == Success("") ==>
              r == Success(NothingRelevant)
    ensures s.store.Some? && r.Success? && BuildContextString(s, enc, query, topK, AnswerContextChars).value != "" ==>
              var context := BuildContextString(s, enc, query, topK, AnswerContextChars).value;
              r.value == Generate(llm, AnswerPrompt(context, query), 256) && IsInfix(context, AnswerPrompt(context, query))
  {
    if s.store.None? then Success(UploadFirst)
    else
      var context :- BuildContextString(s, enc, query, topK, AnswerContextChars);
      if context == "" then Success(NothingRelevant)
      else Success(Generate(llm, AnswerPrompt(context, query), 256))
  }

  /** `generate_summary`. */
  function GenerateSummary(s: State, llm: Generator): (r: string)
    ensures var context := BuildGlobalContext(s, GlobalContextChars);
            context == "" ==> r == UploadFirst
    ensures var context := BuildGlobalContext(s, GlobalContextChars);
            context != "" ==>
              var prompt := SummaryPrompt(context);
              && r == Generate(llm, prompt, 400)
              && IsInfix(context, prompt) && Trimmed(r) && IsInfix(r, llm(prompt, 400))
  {
    var context := BuildGlobalContext(s, GlobalContextChars);
    if context == "" then UploadFirst else Generate(llm, SummaryPrompt(context), 400)
  }

  /** `generate_mcqs`. */
  function GenerateMcqs(s: State, llm: Generator, numQuestions: int): (r: string)
    ensures var context := BuildGlobalContext(s, GlobalContextChars);
            context == "" ==> r == UploadFirst
    ensures var context := BuildGlobalContext(s, GlobalContextChars);
            context != "" ==>
              var prompt := McqPrompt(context, numQuestions);
              && r == Generate(llm, prompt, 600)
              && IsInfix(context, prompt) && Trimmed(r) && IsInfix(r, llm(prompt, 600))
  {
    var context := BuildGlobalContext(s, GlobalContextChars);
    if context == "" then UploadFirst else Generate(llm, McqPrompt(context, numQuestions), 600)
  }

  /** `generate_flashcards`. */
  function GenerateFlashcards(s: State, llm: Generator, numCards: int): (r: string)
    ensures var context := BuildGlobalContext(s, GlobalContextChars);
            context == "" ==> r == UploadFirst
    ensures var context := BuildGlobalContext(s, GlobalContextChars);
            context != "" ==>
              var prompt := FlashcardPrompt(context, numCards);
              && r == Generate(llm, prompt, 600)
              && IsInfix(context, prompt) && Trimmed(r) && IsInfix(r, llm(prompt, 600))
  {
    var context := BuildGlobalContext(s, GlobalContextChars);
    if context == "" then UploadFirst else Generate(llm, FlashcardPrompt(context, numCards), 600)
  }
}
