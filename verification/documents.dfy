/** The `documents` and `document_versions` tables and the single statements that
    internal/repo/store.go runs on them. Every function here is one atomic SQL statement;
    nothing groups two of them into a transaction. */
module Documents {
  import opened Common

  type DocumentId = string
  type VersionId = string

  /** The four columns that a snapshot copies. */
  datatype Content = Content(contentType: string, size: nat, checksum: string, storageKey: string)

  datatype Document = Document(bucket: string, name: string, content: Content, version: nat, deleted: bool)

  datatype Snapshot = Snapshot(document: DocumentId, version: nat, content: Content)

  datatype Tables = Tables(documents: map<DocumentId, Document>, versions: map<VersionId, Snapshot>)

  const EMPTY := Tables(map[], map[])

  // The deleted_at filter of every read and of the guarded updates.
  predicate Live(t: Tables, id: DocumentId) {
    id in t.documents && !t.documents[id].deleted
  }

  // UNIQUE (bucket_id, name) covers deleted rows too.
  predicate NameTaken(t: Tables, bucket: string, name: string, except: set<DocumentId>) {
    exists d :: d in t.documents && d !in except && t.documents[d].bucket == bucket && t.documents[d].name == name
  }

  function SelectDocument(t: Tables, id: DocumentId): Option<Document> {
    if Live(t, id) then Some(t.documents[id]) else None
  }

  function SelectVersion(t: Tables, versionId: VersionId, id: DocumentId): Option<Snapshot> {
    if versionId in t.versions && t.versions[versionId].document == id then Some(t.versions[versionId]) else None
  }

  // INSERT INTO documents: version defaults to 1, deleted_at to NULL.
  function InsertDocument(t: Tables, id: DocumentId, bucket: string, name: string, content: Content): Tables {
    t.(documents := t.documents[id := Document(bucket, name, content, 1, false)])
  }

  // INSERT INTO document_versions.
  function InsertVersion(t: Tables, versionId: VersionId, snapshot: Snapshot): Tables {
    t.(versions := t.versions[versionId := snapshot])
  }

  // UPDATE documents SET name, content columns, version = version + 1 WHERE id AND deleted_at IS NULL.
  function UpdateRow(t: Tables, id: DocumentId, name: string, content: Content): Tables {
    if Live(t, id) then
      var row := t.documents[id];
      t.(documents := t.documents[id := row.(name := name, content := content, version := row.version + 1)])
    else t
  }

  // UPDATE documents SET deleted_at = now WHERE id.
  function MarkDeleted(t: Tables, id: DocumentId): Tables {
    if id in t.documents then t.(documents := t.documents[id := t.documents[id].(deleted := true)]) else t
  }

  // UPDATE documents SET name WHERE id AND deleted_at IS NULL.
  function RenameRow(t: Tables, id: DocumentId, name: string): Tables {
    if Live(t, id) then t.(documents := t.documents[id := t.documents[id].(name := name)]) else t
  }
}
