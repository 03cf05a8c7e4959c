/** The `application_documents` table: upload records, the scoped delete and
    the newest-first listings. */
module ApplicationDocumentCrud {

  import opened Common
  import opened Models

  /** `ApplicationDocumentCreate`. */
  datatype DocumentCreate = DocumentCreate(documentType: DocumentType, fileName: string, originalName: Option<string>)

  function UploadedKey(d: ApplicationDocument): int { InstantKey(d.uploadedAt) }

  /** The filter `id == document_id AND application_id == application_id`. */
  function Scoped(id: int, applicationId: int): ApplicationDocument -> bool {
    (d: ApplicationDocument) => d.id == id && d.applicationId == applicationId
  }

  /** `get_application_documents`: the application's documents, newest upload first. */
  function ApplicationDocuments(rows: seq<ApplicationDocument>, applicationId: int): (r: seq<ApplicationDocument>)
    ensures multiset(r) == multiset(Filter(rows, (d: ApplicationDocument) => d.applicationId == applicationId))
    ensures forall x :: x in r ==> x in rows && x.applicationId == applicationId
    ensures forall i, j :: 0 <= i < j < |r| ==> InstantKey(r[i].uploadedAt) >= InstantKey(r[j].uploadedAt)
  {
    NewestFirst(rows, (d: ApplicationDocument) => d.applicationId == applicationId, UploadedKey, 0, |rows|)
  }

  /** `get_documents_by_type`. */
  function DocumentsByType(rows: seq<ApplicationDocument>, applicationId: int, t: DocumentType)
    : (r: seq<ApplicationDocument>)
    ensures multiset(r) == multiset(Filter(rows, (d: ApplicationDocument) => d.applicationId == applicationId && d.documentType == t))
    ensures forall x :: x in r ==> x in rows && x.applicationId == applicationId && x.documentType == t
    ensures forall i, j :: 0 <= i < j < |r| ==> InstantKey(r[i].uploadedAt) >= InstantKey(r[j].uploadedAt)
  {
    NewestFirst(rows, (d: ApplicationDocument) => d.applicationId == applicationId && d.documentType == t,
                UploadedKey, 0, |rows|)
  }

  ghost predicate IdsBelow(rows: seq<ApplicationDocument>, nextId: int) {
    (forall k :: 0 <= k < |rows| ==> 1 <= rows[k].id < nextId)
    && forall i, j :: 0 <= i < j < |rows| ==> rows[i].id != rows[j].id
  }

  /** The `application_documents` table. */
  class DocumentTable {
    var rows: seq<ApplicationDocument>
    var nextId: int

    ghost predicate Valid()
      reads this
    {
      nextId >= 1 && IdsBelow(rows, nextId)
    }

    constructor ()
      ensures Valid() && rows == [] && nextId == 1
    {
      rows := [];
      nextId := 1;
    }

    /** `create_application_document`: every field as given, stamped `now`. */
    method Create(document: DocumentCreate, applicationId: int, filePath: string, fileSize: Option<int>, now: DateTime)
      returns (d: ApplicationDocument)
      requires Valid()
      modifies this
      ensures Valid()
      ensures d == ApplicationDocument(old(nextId), applicationId, document.documentType, document.fileName,
                                       filePath, fileSize, document.originalName, now)
      ensures rows == old(rows) + [d] && nextId == old(nextId) + 1
    {
      d := ApplicationDocument(nextId, applicationId, document.documentType, document.fileName,
                               filePath, fileSize, document.originalName, now);
      rows := rows + [d];
      nextId := nextId + 1;
    }

    /** `get_application_document`. */
    function Get(id: int): (r: Option<ApplicationDocument>)
      reads this
      ensures r.Some? <==> exists k :: 0 <= k < |rows| && rows[k].id == id
      ensures r.Some? ==> r.value in rows && r.value.id == id
    {
      match FindFirst(rows, (d: ApplicationDocument) => d.id == id)
      case None => None
      case Some(i) => Some(rows[i])
    }

    /** `delete_application_document`. */
    method Delete(id: int, applicationId: int) returns (ok: bool)
      requires Valid()
      modifies this
      ensures Valid() && nextId == old(nextId)
      ensures rows == DeleteFirst(old(rows), Scoped(id, applicationId))
      ensures ok <==> FindFirst(old(rows), Scoped(id, applicationId)).Some?
      ensures !ok ==> rows == old(rows)
      ensures forall x :: x in rows ==> !(x.id == id && x.applicationId == applicationId)
    {
      var found := FindFirst(rows, Scoped(id, applicationId));
      assert AtMostOne(rows, Scoped(id, applicationId));
      DeleteFirstLeavesNone(rows, Scoped(id, applicationId));
      ghost var before := rows;
      rows := DeleteFirst(rows, Scoped(id, applicationId));
      ok := found.Some?;
      assert forall k :: 0 <= k < |rows| ==> rows[k] in before;
    }

    /** The application's rows as the ORM's `delete-orphan` cascade removes
        them when the application itself is deleted. */
    method DeleteForApplication(applicationId: int)
      requires Valid()
      modifies this
      ensures Valid() && nextId == old(nextId)
      ensures rows == Filter(old(rows), (d: ApplicationDocument) => d.applicationId != applicationId)
      ensures forall x :: x in rows ==> x.applicationId != applicationId
    {
      ghost var before := rows;
      var keep := (d: ApplicationDocument) => d.applicationId != applicationId;
      ghost var key := (d: ApplicationDocument) => d.id;
      assert DistinctBy(rows, key);
      FilterKeepsDistinct(rows, keep, key);
      rows := Filter(rows, keep);
      assert DistinctBy(rows, key);
      assert forall k :: 0 <= k < |rows| ==> rows[k] in before;
    }
  }
}
