/** The fixed-field records that flow through the retrieval core, in place of
    the loosely typed dictionaries of the Python program. */
module Records {

  /** One extracted page: its 1-based number and its text. */
  datatype Page = Page(pageNum: int, text: string)

  /** One chunker output: `chunk_id`, `page_num` and `text`, nothing else. */
  datatype Chunk = Chunk(chunkId: int, pageNum: int, text: string)

  /** A chunk tagged with the name of the file it came from; this is both an
      entry of the pipeline's chunk list and a metadata entry of the store. */
  datatype Record = Record(chunkId: int, pageNum: int, text: string, source: string)
}
