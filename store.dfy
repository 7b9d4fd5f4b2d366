// The default collection of the Couchbase bucket every service writes to.
module Store {
  import opened Wrappers
  import opened Models

  type Docs = map<string, Doc>

  const DocumentExists: string := "document exists"
  const DocumentNotFound: string := "document not found"

  /** The error a write returned, and the collection after it. */
  datatype Written = Written(err: Option<string>, docs: Docs)

  /** Insert refuses a key that is already taken. */
  function InsertInto(docs: Docs, key: string, doc: Doc): (w: Written)
    ensures w.err.None? <==> key !in docs
    ensures w.err.Some? ==> w.err.value == DocumentExists && w.docs == docs
    ensures w.err.None? ==> w.docs == docs[key := doc]
  {
    if key in docs then Written(Some(DocumentExists), docs) else Written(None, docs[key := doc])
  }

  /** Replace refuses a key that is not there. */
  function ReplaceIn(docs: Docs, key: string, doc: Doc): (w: Written)
    ensures w.err.None? <==> key in docs
    ensures w.err.Some? ==> w.err.value == DocumentNotFound && w.docs == docs
    ensures w.err.None? ==> w.docs == docs[key := doc] && w.docs.Keys == docs.Keys
  {
    if key in docs then Written(None, docs[key := doc]) else Written(Some(DocumentNotFound), docs)
  }

  class Collection {
    var docs: Docs

    constructor (initial: Docs)
      ensures docs == initial
    {
      docs := initial;
    }

    method Get(key: string) returns (doc: Option<Doc>)
      ensures doc.Some? <==> key in docs
      ensures doc.Some? ==> doc.value == docs[key]
    {
      doc := if key in docs then Some(docs[key]) else None;
    }

    method Insert(key: string, doc: Doc) returns (err: Option<string>)
      modifies this
      ensures Written(err, docs) == InsertInto(old(docs), key, doc)
    {
      if key in docs {
        err := Some(DocumentExists);
      } else {
        docs := docs[key := doc];
        err := None;
      }
    }

    method Replace(key: string, doc: Doc) returns (err: Option<string>)
      modifies this
      ensures Written(err, docs) == ReplaceIn(old(docs), key, doc)
    {
      if key in docs {
        docs := docs[key := doc];
        err := None;
      } else {
        err := Some(DocumentNotFound);
      }
    }
  }
}
