/** LangChain's `Document`, the unit that is stored, retrieved and filtered. */
module Documents {
  import opened Values

  /** A passage: its text and its metadata dict, both reassigned in place by the storer. */
  class Document {
    var pageContent: string
    var metadata: Metadata

    constructor (pageContent: string, metadata: Metadata)
      ensures this.pageContent == pageContent && this.metadata == metadata
    {
      this.pageContent := pageContent;
      this.metadata := metadata;
    }
  }

  /** The value of a document at one moment: its text and its metadata. */
  datatype Passage = Passage(content: string, metadata: Metadata)

  function Snap(doc: Document): Passage
    reads doc
  {
    Passage(doc.pageContent, doc.metadata)
  }

  /** The values of a list of documents, position by position. */
  function Snapshot(docs: seq<Document>): (r: seq<Passage>)
    reads docs
    ensures |r| == |docs| && forall i :: 0 <= i < |docs| ==> r[i] == Snap(docs[i])
  {
    seq(|docs|, i reads docs requires 0 <= i < |docs| => Snap(docs[i]))
  }

  /** No document object appears twice in the list. */
  predicate Distinct(docs: seq<Document>) {
    forall i, j :: 0 <= i < j < |docs| ==> docs[i] != docs[j]
  }
}
