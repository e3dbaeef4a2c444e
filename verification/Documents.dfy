/** Stored documents as field maps, and the CouchDB database that holds them. */
module Documents {
  import opened Wrappers
  import opened Json

  type Document = map<string, Json>

  function TextField(d: Document, field: string): Option<string> {
    if field in d && d[field].String? && d[field].text != "" then Some(d[field].text) else None
  }

  function IdOf(d: Document): Option<string> {
    TextField(d, "_id")
  }

  function RevOf(d: Document): Option<string> {
    TextField(d, "_rev")
  }

  /** CouchDB takes nothing but a boolean here. */
  predicate Deleted(d: Document) {
    "_deleted" in d && d["_deleted"] == Bool(true)
  }

  function Lookup<T>(m: map<string, T>, key: string): Option<T> {
    if key in m then Some(m[key]) else None
  }

  /** Live documents by id; a deleted document is not in the map. */
  type DocumentStore = map<string, Document>

  /** The store after a document is written under a new revision. */
  function Stored(store: DocumentStore, id: string, d: Document, rev: string): DocumentStore {
    if Deleted(d) then store - {id} else store[id := d["_rev" := String(rev)]]
  }

  /** Every document is stored under its own id. */
  ghost predicate Keyed(store: DocumentStore) {
    forall id :: id in store ==> IdOf(store[id]) == Some(id)
  }

  function CurrentRev(store: DocumentStore, id: string): Option<string> {
    if id in store then RevOf(store[id]) else None
  }

  /** A stored document has the new revision and every other field as written; a deleted one is gone. */
  lemma StoredTells(store: DocumentStore, id: string, d: Document, rev: string, k: string)
    requires rev != ""
    ensures Deleted(d) ==> CurrentRev(Stored(store, id, d, rev), id) == None
    ensures !Deleted(d) ==>
              && CurrentRev(Stored(store, id, d, rev), id) == Some(rev)
              && (k != "_rev" ==> Lookup(Stored(store, id, d, rev)[id], k) == Lookup(d, k))
  {
  }

  // ---------------------------------------------------------------- bulk writes

  /** What the database makes of one document of a bulk request. */
  datatype Outcome = Written(rev: string) | Failed(error: string)

  datatype BulkResult = Accepted(id: string, rev: string) | Rejected(id: string, error: string)

  function IdText(d: Document): string {
    if IdOf(d).Some? then IdOf(d).value else ""
  }

  /** The store after a bulk request; `decide` says what happens to the document at each position. */
  function AfterBulk(store: DocumentStore, docs: seq<Document>, decide: nat -> Outcome): DocumentStore {
    if docs == [] then store
    else
      var n := |docs| - 1;
      var before := AfterBulk(store, docs[..n], decide);
      if decide(n).Written? then Stored(before, IdText(docs[n]), docs[n], decide(n).rev) else before
  }

  /** One result per document, or with `new_edits: false` only the failures. */
  function BulkResponse(newEditsFalse: bool, docs: seq<Document>, decide: nat -> Outcome): seq<BulkResult> {
    if docs == [] then []
    else
      var n := |docs| - 1;
      var id := IdText(docs[n]);
      BulkResponse(newEditsFalse, docs[..n], decide)
      + (if decide(n).Failed? then [Rejected(id, decide(n).error)]
         else if newEditsFalse then []
         else [Accepted(id, decide(n).rev)])
  }

  /** With `new_edits: false` a document is written under the revision it carries. */
  predicate KeepsRevisions(docs: seq<Document>, decide: nat -> Outcome) {
    forall i :: 0 <= i < |docs| && decide(i).Written? ==> RevOf(docs[i]) == Some(decide(i).rev)
  }

  // ---------------------------------------------------------------- the database

  /** A document object of the program; it can be shared and changed in place. */
  class DocObject {
    var fields: Document

    constructor (fields: Document)
      ensures this.fields == fields
    {
      this.fields := fields;
    }
  }

  datatype AllDocsRow = AllDocsRow(id: string, doc: Option<Document>)

  class DocumentDatabase {
    var store: DocumentStore
    /** superseded revisions that can still be read */
    var superseded: map<(string, string), Document>

    constructor (store: DocumentStore)
      ensures this.store == store && superseded == map[]
    {
      this.store, superseded := store, map[];
    }

    function Read(id: string, rev: Option<string>): Option<Document>
      reads this
    {
      if rev.None? || rev == CurrentRev(store, id) then Lookup(store, id)
      else if (id, rev.value) in superseded then Some(superseded[(id, rev.value)])
      else None
    }

    /** Every read answers with an object of its own. */
    method Get(id: string, rev: Option<string>) returns (found: Option<DocObject>)
      ensures found.Some? <==> Read(id, rev).Some?
      ensures found.Some? ==> fresh(found.value) && found.value.fields == Read(id, rev).value
    {
      var doc := Read(id, rev);
      if doc.None? {
        return None;
      }
      var copy := new DocObject(doc.value);
      return Some(copy);
    }

    /** One row per key; a deleted or missing document has none in its row. */
    method AllDocs(keys: seq<string>) returns (rows: seq<AllDocsRow>)
      ensures |rows| == |keys| && forall i :: 0 <= i < |keys| ==> rows[i] == AllDocsRow(keys[i], Lookup(store, keys[i]))
    {
      var docs := store;
      rows := seq(|keys|, i requires 0 <= i < |keys| => AllDocsRow(keys[i], Lookup(docs, keys[i])));
    }

    /** Writes a document only on its current revision. */
    method Put(body: Document, rev: string) returns (result: Result<string>)
      modifies this
      ensures result.Ok? <==> RevOf(body) == old(CurrentRev(store, IdText(body)))
      ensures result.Ok? ==> result.value == rev && store == old(Stored(store, IdText(body), body, rev))
      ensures result.Err? ==> store == old(store)
    {
      if RevOf(body) != CurrentRev(store, IdText(body)) {
        return Err("conflict");
      }
      store := Stored(store, IdText(body), body, rev);
      return Ok(rev);
    }

    method Delete(id: string, current: Option<string>, rev: string) returns (result: Result<string>)
      modifies this
      ensures result.Ok? <==> id in old(store) && current == old(CurrentRev(store, id))
      ensures result.Ok? ==> result.value == rev && store == old(store) - {id}
      ensures result.Err? ==> store == old(store)
    {
      if id !in store || current != CurrentRev(store, id) {
        return Err("conflict");
      }
      store := store - {id};
      return Ok(rev);
    }

    method PostBulkDocs(
      docs: seq<Document>, newEditsFalse: bool, decide: nat -> Outcome)
      returns (response: seq<BulkResult>)
      requires newEditsFalse ==> KeepsRevisions(docs, decide)
      modifies this
      ensures store == AfterBulk(old(store), docs, decide)
      ensures response == BulkResponse(newEditsFalse, docs, decide)
    {
      store := AfterBulk(store, docs, decide);
      return BulkResponse(newEditsFalse, docs, decide);
    }
  }
}
