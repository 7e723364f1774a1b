/** The document action creators. Only completing, deleting and marking documents go to
    the server; adding documents is applied locally even though it names a project. */
module DocumentActions {
  import opened Wrappers
  import opened Envelope
  import Strings

  /** Documents, import documents, files and annotations are carried without being looked into. */
  datatype Payload =
    | AddDocumentsPayload(documents: seq<Opaque>, file: Opaque, name: string)
    | ChangeDocumentSetPayload(batch: Option<string>, documentSet: string)
    | CompleteDocumentPayload(annotations: Opaque, document: Opaque, user: Ref)
    | DeleteDocumentsPayload(documentIds: seq<string>)
    | MarkDocumentsCompletePayload(documents: seq<Opaque>)
    | SetDocumentsWorkBatchPayload(documentIds: seq<string>)
    | UpdateDocumentsPayload(documents: seq<Opaque>)

  function TypeOf(p: Payload): string {
    match p
    case AddDocumentsPayload(_, _, _) => "ADD DOCUMENTS"
    case ChangeDocumentSetPayload(_, _) => "CHANGE DOCUMENT SET"
    case CompleteDocumentPayload(_, _, _) => "COMPLETE DOCUMENT"
    case DeleteDocumentsPayload(_) => "DELETE DOCUMENTS"
    case MarkDocumentsCompletePayload(_) => "MARK DOCUMENTS COMPLETE"
    case SetDocumentsWorkBatchPayload(_) => "SET DOCUMENTS WORK BATCH"
    case UpdateDocumentsPayload(_) => "UPDATE DOCUMENTS"
  }

  predicate ServerBound(p: Payload) {
    p.CompleteDocumentPayload? || p.DeleteDocumentsPayload? || p.MarkDocumentsCompletePayload?
  }

  lemma TypeOfDistinguishesKinds(p: Payload, q: Payload)
    requires TypeOf(p) == TypeOf(q)
    ensures p.AddDocumentsPayload? == q.AddDocumentsPayload?
    ensures p.ChangeDocumentSetPayload? == q.ChangeDocumentSetPayload?
    ensures p.CompleteDocumentPayload? == q.CompleteDocumentPayload?
    ensures p.DeleteDocumentsPayload? == q.DeleteDocumentsPayload?
    ensures p.MarkDocumentsCompletePayload? == q.MarkDocumentsCompletePayload?
    ensures p.SetDocumentsWorkBatchPayload? == q.SetDocumentsWorkBatchPayload?
    ensures p.UpdateDocumentsPayload? == q.UpdateDocumentsPayload?
  {
  }

  predicate Consistent(a: Action<Payload>) {
    Conforms(a, TypeOf, ServerBound)
  }

  /** The label a new batch gets: the name typed in, trimmed, unless that leaves nothing,
      and then the current time as formatted for display. */
  function BatchLabel(batchName: string, formattedNow: string): (batch: string)
    ensures Strings.Trim(batchName) != [] ==> batch == Strings.Trim(batchName)
    ensures Strings.Trim(batchName) == [] ==> batch == formattedNow
    ensures batch != formattedNow ==> batch != [] && !Strings.IsJsWhitespace(batch[0])
  {
    var trimmed := Strings.Trim(batchName);
    if |trimmed| > 0 then trimmed else formattedNow
  }

  /** `addDocuments(file, importDocuments, name, project, user, {batchName})`. The clock
      (`formattedNow`, and `nowSeconds` for the upload time) and the converter
      `fromImportDocument` are parameters. */
  function AddDocuments(file: Opaque, importDocuments: seq<Opaque>, name: string, project: Ref, user: Ref,
                        batchName: string, formattedNow: string, nowSeconds: int,
                        fromImportDocument: (string, int, Ref, Opaque) -> Opaque): (a: Action<Payload>)
    ensures Consistent(a) && !a.meta.sendToServer
    ensures a.meta.initiatedBy == Some(user.id) && a.meta.project == Some(project.id)
    ensures a.payload.AddDocumentsPayload? && a.payload.file == file && a.payload.name == name
    ensures |a.payload.documents| == |importDocuments|
    ensures forall i :: 0 <= i < |importDocuments| ==>
              a.payload.documents[i]
              == fromImportDocument(BatchLabel(batchName, formattedNow), nowSeconds, user, importDocuments[i])
  {
    var batchLabel := BatchLabel(batchName, formattedNow);
    var documents := seq(|importDocuments|, i requires 0 <= i < |importDocuments| =>
                           fromImportDocument(batchLabel, nowSeconds, user, importDocuments[i]));
    var p := AddDocumentsPayload(documents, file, name);
    Action(TypeOf(p), Meta(Some(user.id), Some(project.id), false), p)
  }

  /** `changeDocumentSet(batch, documentSet)`; an omitted `batch` is `None`. */
  function ChangeDocumentSet(batch: Option<string>, documentSet: string): (a: Action<Payload>)
    ensures Consistent(a) && a.meta == LocalMeta
    ensures a.payload == ChangeDocumentSetPayload(batch, documentSet)
  {
    var p := ChangeDocumentSetPayload(batch, documentSet);
    Action(TypeOf(p), LocalMeta, p)
  }

  function CompleteDocument(annotations: Opaque, document: Opaque, project: Ref, user: Ref): (a: Action<Payload>)
    ensures Consistent(a) && a.meta == ServerMeta(user.id, project.id)
    ensures a.payload == CompleteDocumentPayload(annotations, document, user)
  {
    var p := CompleteDocumentPayload(annotations, document, user);
    Action(TypeOf(p), ServerMeta(user.id, project.id), p)
  }

  function DeleteDocuments(documentIds: seq<string>, project: Ref, user: Ref): (a: Action<Payload>)
    ensures Consistent(a) && a.meta == ServerMeta(user.id, project.id)
    ensures a.payload == DeleteDocumentsPayload(documentIds)
  {
    var p := DeleteDocumentsPayload(documentIds);
    Action(TypeOf(p), ServerMeta(user.id, project.id), p)
  }

  function MarkDocumentsComplete(documents: seq<Opaque>, project: Ref, user: Ref): (a: Action<Payload>)
    ensures Consistent(a) && a.meta == ServerMeta(user.id, project.id)
    ensures a.payload == MarkDocumentsCompletePayload(documents)
  {
    var p := MarkDocumentsCompletePayload(documents);
    Action(TypeOf(p), ServerMeta(user.id, project.id), p)
  }

  function SetDocumentsWorkBatch(documentIds: seq<string>): (a: Action<Payload>)
    ensures Consistent(a) && a.meta == LocalMeta
    ensures a.payload == SetDocumentsWorkBatchPayload(documentIds)
  {
    var p := SetDocumentsWorkBatchPayload(documentIds);
    Action(TypeOf(p), LocalMeta, p)
  }

  /** `updateDocuments(documents, user)`; an omitted user is `None`. */
  function UpdateDocuments(documents: seq<Opaque>, user: Option<Ref>): (a: Action<Payload>)
    ensures Consistent(a) && !a.meta.sendToServer && a.meta.project.None?
    ensures a.meta.initiatedBy == if user.Some? then Some(user.value.id) else None
    ensures a.payload == UpdateDocumentsPayload(documents)
  {
    var p := UpdateDocumentsPayload(documents);
    Action(TypeOf(p), LocalMetaBy(if user.Some? then Some(user.value.id) else None), p)
  }
}
