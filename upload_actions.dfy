/** Uploading documents in batches of five: the envelope that carries one batch, and the
    thunk that sends the next batch and, once the server answers, schedules the one after. */
module UploadActions {
  import opened Wrappers
  import opened Envelope
  import JsObject
  import Seqs
  import ClientStore

  datatype Payload = UploadDocumentsPayload(batchId: Option<string>, batchLabel: string,
                                            documents: seq<Opaque>, project: string)

  const UploadDocumentsType := "UPLOAD DOCUMENTS"

  /** The number of documents sent per request. */
  const UploadSize: nat := 5

  /** `uploadDocuments(documents, initiatedBy, project, batchLabel, batchId)`: server-bound,
      with the project both in `meta` and beside the documents; an omitted `batchId` is `None`. */
  function UploadDocuments(documents: seq<Opaque>, initiatedBy: string, project: string,
                           batchLabel: string, batchId: Option<string>): (a: Action<Payload>)
    ensures a.actionType == UploadDocumentsType && WellRouted(a.meta)
    ensures a.meta == ServerMeta(initiatedBy, project)
    ensures a.payload.project == project && a.meta.project == Some(a.payload.project)
    ensures a.payload.documents == documents
    ensures a.payload.batchId == batchId && a.payload.batchLabel == batchLabel
  {
    Action(UploadDocumentsType, ServerMeta(initiatedBy, project),
           UploadDocumentsPayload(batchId, batchLabel, documents, project))
  }

  /** `documentIds.slice(0, UPLOAD_SIZE).map(id => uploadDocs[id])`: the documents of the
      first five keys, in key order. */
  function NextBatch(uploads: JsObject.Object<Opaque>): (batch: seq<Opaque>)
    requires JsObject.DistinctKeys(uploads)
    ensures |batch| == if |uploads| < UploadSize then |uploads| else UploadSize
    ensures forall i :: 0 <= i < |batch| ==> batch[i] == uploads[i].1
  {
    var ids := Seqs.Take(JsObject.Keys(uploads), UploadSize);
    var batch := JsObject.LookupAll(uploads, ids);
    forall i | 0 <= i < |batch| ensures batch[i] == uploads[i].1 {
      JsObject.LookupAt(uploads, i);
    }
    batch
  }

  /** What the server's answer to one batch carries: the batch id it assigned, if any, and
      the action the client dispatches. */
  datatype Reply = Reply(batchId: Option<string>, action: Opaque)

  /** `action.batchId || null`. */
  function NextBatchId(reply: Reply): (id: Option<string>)
    ensures id.Some? <==> Truthy(reply.batchId)
    ensures id.Some? ==> id == reply.batchId
  {
    if Truthy(reply.batchId) then reply.batchId else None
  }

  /** The request `processUploadBatch` sends: none when nothing is waiting to upload. */
  function UploadRequest(uploads: JsObject.Object<Opaque>, user: Ref, project: Ref, batchLabel: string,
                         batchId: Option<string>): (r: Option<Action<Payload>>)
    requires JsObject.DistinctKeys(uploads)
    ensures r.None? <==> uploads == []
    ensures r.Some? ==> r.value == UploadDocuments(NextBatch(uploads), user.id, project.id, batchLabel, batchId)
  {
    if |JsObject.Keys(uploads)| < 1 then None
    else Some(UploadDocuments(NextBatch(uploads), user.id, project.id, batchLabel, batchId))
  }

  /** `processUploadBatch(batchLabel, batchId)(dispatch, getState)`. `respond` is the
      server's answer to `sendAction` (`None` when it never resolves). Returns the envelope
      sent, and whether `unwrap` threw because no user or project is current. */
  method ProcessUploadBatch(store: ClientStore.Store, batchLabel: string, batchId: Option<string>,
                            respond: Action<Payload> -> Option<Reply>)
    returns (sent: Option<Action<Payload>>, threw: bool)
    requires store.Valid()
    modifies store`dispatched, store`timers
    ensures store.uploads == [] ==> sent.None? && !threw
    ensures store.uploads != [] && (store.currentUser.None? || store.currentProject.None?) ==>
              sent.None? && threw
    ensures store.uploads != [] && store.currentUser.Some? && store.currentProject.Some? ==>
              !threw && sent == UploadRequest(store.uploads, store.currentUser.value, store.currentProject.value,
                                              batchLabel, batchId)
    ensures sent.Some? && respond(sent.value).Some? ==>
              var reply := respond(sent.value).value;
              && store.dispatched == old(store.dispatched) + [reply.action]
              && store.timers == old(store.timers) + [(batchLabel, NextBatchId(reply))]
    ensures sent.None? || respond(sent.value).None? ==>
              store.dispatched == old(store.dispatched) && store.timers == old(store.timers)
  {
    sent, threw := None, false;
    var documentIds := JsObject.Keys(store.uploads);
    if |documentIds| < 1 {
      return;
    }
    if store.currentUser.None? || store.currentProject.None? {
      threw := true;
      return;
    }
    var uploadAction := UploadDocuments(NextBatch(store.uploads), store.currentUser.value.id,
                                        store.currentProject.value.id, batchLabel, batchId);
    sent := Some(uploadAction);
    match respond(uploadAction)
    case None =>
    case Some(reply) =>
      store.Dispatch(reply.action);
      store.Schedule(batchLabel, NextBatchId(reply));
  }
}
