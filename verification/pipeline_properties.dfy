/** Properties of the pipeline across operations: what ingestion puts in the
    state, what a later ingestion leaves of an earlier one, and that the text
    generator is not consulted when there is no context. */
module PipelineProperties {
  import opened Wrappers
  import opened Text
  import opened Records
  import opened Chunking
  import opened ChunkingProperties
  import opened VectorIndex
  import opened ContextAssembly
  import opened RagPipeline

  /** A record that could only have come from file `f`: it carries the file's
      name and a page number of the file, and its text is a piece of that
      page's text no longer than a chunk. */
  ghost predicate FromFile(rec: Record, f: UploadedFile) {
    && rec.source == f.name
    && |rec.text| <= ChunkMaxChars
    && exists p :: p in f.pages && rec.pageNum == p.pageNum && IsInfix(rec.text, p.text)
  }

  /** One file's records are its chunks in order, numbered from 0 within the
      file, each tagged with the file's name. */
  lemma FileRecordsShape(f: UploadedFile)
    ensures var cs := ChunkText(f.pages, ChunkMaxChars, ChunkOverlap);
            var r := FileRecords(f);
            |r| == |cs|
            && forall i :: 0 <= i < |r| ==>
                 r[i].chunkId == i && r[i].source == f.name
                 && r[i].pageNum == cs[i].pageNum && r[i].text == cs[i].text
                 && FromFile(r[i], f)
  {
    var cs := ChunkText(f.pages, ChunkMaxChars, ChunkOverlap);
    var r := FileRecords(f);
    ChunkTextProvenance(f.pages, ChunkMaxChars, ChunkOverlap);
    forall i | 0 <= i < |r|
      ensures FromFile(r[i], f)
    {
      assert cs[i] in cs;
    }
  }

  /** The records of several uploads are the records of each, in upload order. */
  lemma {:induction false} AllRecordsAppend(a: seq<UploadedFile>, b: seq<UploadedFile>)
    ensures AllRecords(a + b) == AllRecords(a) + AllRecords(b)
  {
    if |a| == 0 {
      assert a + b == b;
    } else {
      assert (a + b)[0] == a[0];
      assert (a + b)[1..] == a[1..] + b;
      AllRecordsAppend(a[1..], b);
    }
  }

  /** Chunk numbers restart with every file: the first record of every file
      that has one is chunk 0, wherever that file sits in the upload. */
  lemma ChunkIdsRestartPerFile(before: seq<UploadedFile>, f: UploadedFile, after: seq<UploadedFile>)
    requires |FileRecords(f)| > 0
    ensures var all := AllRecords(before + [f] + after);
            var k := |AllRecords(before)|;
            k < |all| && all[k].chunkId == 0 && all[k].source == f.name
  {
    AllRecordsAppend(before + [f], after);
    AllRecordsAppend(before, [f]);
    assert [f][1..] == [];
    assert AllRecords([f]) == FileRecords(f);
    FileRecordsShape(f);
  }

  /** Every ingested record comes from one of the uploaded files. */
  lemma {:induction false} RecordsFromFiles(files: seq<UploadedFile>)
    ensures forall rec :: rec in AllRecords(files) ==> exists f :: f in files && FromFile(rec, f)
  {
    if |files| > 0 {
      var first := FileRecords(files[0]);
      var later := AllRecords(files[1..]);
      FileRecordsShape(files[0]);
      RecordsFromFiles(files[1..]);
      forall rec: Record | rec in first + later
        ensures exists f :: f in files && FromFile(rec, f)
      {
        if rec in first {
          var i :| 0 <= i < |first| && first[i] == rec;
          assert files[0] in files && FromFile(first[i], files[0]);
        } else {
          var f :| f in files[1..] && FromFile(rec, f);
          assert f in files;
        }
      }
    }
  }

  /** Whatever a search returns from a state whose chunks are those of
      `files` comes from one of those files. */
  lemma RetrievedFrom(t: State, files: seq<UploadedFile>, enc: Encoder, query: string, topK: int)
    requires Valid(t) && t.chunks == AllRecords(files)
    ensures var res := Retrieve(t, enc, query, topK);
            res.Success? ==> forall i :: 0 <= i < |res.value| ==>
                               exists f :: f in files && FromFile(res.value[i].meta, f)
  {
    var res := Retrieve(t, enc, query, topK);
    if res.Success? {
      forall i | 0 <= i < |res.value|
        ensures exists f :: f in files && FromFile(res.value[i].meta, f)
      {
        RecordFromFiles(res.value[i].meta, files);
      }
    }
  }

  lemma RecordFromFiles(rec: Record, files: seq<UploadedFile>)
    requires rec in AllRecords(files)
    ensures exists f :: f in files && FromFile(rec, f)
  {
    RecordsFromFiles(files);
  }

  /** A second ingestion replaces the first: the resulting state, and so the
      chunk list and the global context, depend only on the latest upload. */
  lemma ReingestReplaces(s: State, older: seq<UploadedFile>, newer: seq<UploadedFile>, enc: Encoder, maxChars: int)
    requires Encodes(enc)
    ensures var t := Ingest(Ingest(s, older, enc), newer, enc);
            && t == Ingest(Init(), newer, enc)
            && t.chunks == AllRecords(newer)
            && BuildGlobalContext(t, maxChars) == PackContext(AllRecords(newer), maxChars)
  {
    IngestIgnoresState(Ingest(s, older, enc), Init(), newer, enc);
  }

  /** After a second ingestion nothing retrieved comes from a file of the
      first one (unless the same file was uploaded again). */
  lemma ReingestRetrievesOnlyNewer(s: State, older: seq<UploadedFile>, newer: seq<UploadedFile>, enc: Encoder,
                                   query: string, topK: int)
    requires Encodes(enc)
    ensures var res := Retrieve(Ingest(Ingest(s, older, enc), newer, enc), enc, query, topK);
            res.Success? ==> forall i :: 0 <= i < |res.value| ==>
                               exists f :: f in newer && FromFile(res.value[i].meta, f)
  {
    var t := Ingest(Ingest(s, older, enc), newer, enc);
    assert Valid(t) && t.chunks == AllRecords(newer);
    RetrievedFrom(t, newer, enc, query, topK);
  }

  /** Ingestion is a full rebuild: the state before it makes no difference. */
  lemma IngestIgnoresState(a: State, b: State, files: seq<UploadedFile>, enc: Encoder)
    requires Encodes(enc)
    ensures Ingest(a, files, enc) == Ingest(b, files, enc)
  {
  }

  /** After an ingestion, a search for `topK >= 1` neighbours succeeds and
      returns `min(topK, number of chunks)` chunks, nearest first. */
  lemma IngestThenRetrieve(s: State, files: seq<UploadedFile>, enc: Encoder, query: string, topK: int)
    requires Encodes(enc) && topK >= 1
    ensures var res := Retrieve(Ingest(s, files, enc), enc, query, topK);
            && res.Success?
            && |res.value| == Min(topK, |AllRecords(files)|)
            && (forall i :: 0 <= i < |res.value| ==> res.value[i].meta in AllRecords(files))
            && forall i, j :: 0 <= i < j < |res.value| ==> res.value[i].distance <= res.value[j].distance
  {
    assert |enc.embed(query)| == enc.dim;
  }

  /** Before any ingestion there is no context: every task answers with its
      fixed message. */
  lemma NothingBeforeIngest(enc: Encoder, llm: Generator, query: string, topK: int, n: int)
    ensures BuildContextString(Init(), enc, query, topK, AnswerContextChars) == Success("")
    ensures AnswerLlm(Init(), enc, llm, query, topK) == Success(UploadFirst)
    ensures AnswerDummy(Init(), enc, query, topK) == Success(NoDocuments)
    ensures GenerateSummary(Init(), llm) == UploadFirst
    ensures GenerateMcqs(Init(), llm, n) == UploadFirst
    ensures GenerateFlashcards(Init(), llm, n) == UploadFirst
  {
  }

  /** Without context the text generator is never consulted: any two
      generators give the same answer. */
  lemma AnswerIgnoresLlmWithoutContext(s: State, enc: Encoder, llm1: Generator, llm2: Generator,
                                       query: string, topK: int)
    requires Valid(s)
    requires s.store.None? || BuildContextString(s, enc, query, topK, AnswerContextChars) == Success("")
    ensures AnswerLlm(s, enc, llm1, query, topK) == AnswerLlm(s, enc, llm2, query, topK)
    ensures AnswerLlm(s, enc, llm1, query, topK) in {Success(UploadFirst), Success(NothingRelevant)}
  {
  }

  lemma StudyHelpersIgnoreLlmWithoutContext(s: State, llm1: Generator, llm2: Generator, n: int)
    requires |s.chunks| == 0 || |Line(s.chunks[0])| > GlobalContextChars
    ensures GenerateSummary(s, llm1) == GenerateSummary(s, llm2) == UploadFirst
    ensures GenerateMcqs(s, llm1, n) == GenerateMcqs(s, llm2, n) == UploadFirst
    ensures GenerateFlashcards(s, llm1, n) == GenerateFlashcards(s, llm2, n) == UploadFirst
  {
  }
}
