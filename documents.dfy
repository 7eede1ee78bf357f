/** The LangChain `Document` value that flows between the loaders, the summarizer, the vector
    store and the table extractor: page text plus a metadata dictionary. */
module Documents {
  import opened Wrappers

  /** A metadata value: the core stores strings (`source`, `content_type`) and one integer
      (`table_index`). */
  datatype MetaValue = Str(text: string) | Int(number: int)

  datatype Doc = Doc(pageContent: string, metadata: map<string, MetaValue>)

  /** `doc.metadata.get(key)`. */
  function MetaGet(d: Doc, key: string): Option<MetaValue>
  {
    if key in d.metadata then Some(d.metadata[key]) else None
  }

  /** `[doc.page_content for doc in docs]`. */
  function PageContents(docs: seq<Doc>): seq<string>
  {
    seq(|docs|, i requires 0 <= i < |docs| => docs[i].pageContent)
  }
}
