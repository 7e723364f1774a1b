/** The document materializer: a document row, with its joined uploader, completer and
    batch, and the users currently viewing it, becomes the client model of a processing,
    ready or complete document. */
module DocumentModel {
  import opened Wrappers

  /** The `id`, `name` and `avatar` columns of a user row. */
  datatype BriefUser = BriefUser(id: string, name: string, avatar: Option<string>)

  /** The `label` and `createdAt` (milliseconds since the epoch) columns of a batch row. */
  datatype BatchRow = BatchRow(batchLabel: Option<string>, createdAtMs: int)

  /** A document row with its default joins; a join is None when the foreign key is null
      or points at no row. */
  datatype DocumentRow = DocumentRow(
    id: string,
    state: Option<string>,
    title: Option<string>,
    taskCurrentStep: int,
    taskTotalSteps: int,
    confidence: string,
    hasFailed: bool,
    projectId: string,
    batch: Option<BatchRow>,
    uploadedBy: Option<BriefUser>,
    completedBy: Option<BriefUser>)

  datatype BatchDetails = BatchDetails(batchLabel: Option<string>, time: int)

  datatype Task = Task(progress: int, steps: int)

  /** The part of a document model that depends on its state. */
  datatype Stage = Processing(task: Task) | Ready(annotationConfidence: string) | Complete(completedBy: BriefUser)

  datatype Document = Document(
    id: string,
    title: string,
    hasFailed: bool,
    batchDetails: BatchDetails,
    uploadedBy: BriefUser,
    viewing: seq<BriefUser>,
    stage: Stage)

  /** The `state` field of a document model. */
  function StateName(d: Document): string {
    match d.stage
    case Processing(_) => "processing"
    case Ready(_) => "ready"
    case Complete(_) => "complete"
  }

  /** `moment(ms).unix()`: whole seconds, rounded down. */
  function UnixSeconds(ms: int): (s: int)
    ensures s * 1000 <= ms < s * 1000 + 1000
  {
    ms / 1000
  }

  /** The message of the TypeError raised by reading a field of a missing join. */
  const MissingJoinError := "TypeError: Cannot read property of null"

  /** The message for a state the switch does not handle; a null state prints as "null". */
  function UnhandledState(state: Option<string>): (m: string)
    ensures m == "Unhandled document state: \"" + (if state.Some? then state.value else "null") + "\"."
  {
    "Unhandled document state: \"" + (match state case Some(s) => s case None => "null") + "\"."
  }

  /** The states the switch handles: "uploaded" shares the branch of "processing". */
  predicate Handled(state: Option<string>) {
    state in {Some("uploaded"), Some("processing"), Some("ready"), Some("complete")}
  }

  /** The stage a handled row's model takes, when the joins it reads are present. */
  function StageOf(row: DocumentRow): Option<Stage>
    requires Handled(row.state)
  {
    match row.state.value
    case "ready" => Some(Ready(row.confidence))
    case "complete" => if row.completedBy.Some? then Some(Complete(row.completedBy.value)) else None
    case _ => Some(Processing(Task(row.taskCurrentStep, row.taskTotalSteps)))
  }

  /** `documentFromRow` (and `rowToModel`, which passes its outcome on): `viewers` is the
      outcome of the currently-viewing-users query, which handled states make. */
  function DocumentFromRow(row: DocumentRow, viewers: Settled<seq<BriefUser>>): (r: Settled<Document>)
    ensures !Handled(row.state) ==> r == Rejected(UnhandledState(row.state))
    ensures Handled(row.state) && viewers.Rejected? ==> r == Rejected(viewers.error)
    ensures r.Pending? <==> Handled(row.state) && viewers.Pending?
    ensures r.Resolved? <==>
              && Handled(row.state) && viewers.Resolved?
              && row.batch.Some? && row.uploadedBy.Some?
              && (row.state == Some("complete") ==> row.completedBy.Some?)
    ensures Handled(row.state) && viewers.Resolved? && !r.Resolved? ==> r == Rejected(MissingJoinError)
    ensures r.Resolved? ==>
              && r.value.id == row.id
              && r.value.title == OrElse(row.title, "Untitled")
              && r.value.hasFailed == row.hasFailed
              && r.value.batchDetails == BatchDetails(row.batch.value.batchLabel, UnixSeconds(row.batch.value.createdAtMs))
              && r.value.uploadedBy == row.uploadedBy.value
              && r.value.viewing == viewers.value
  {
    if !Handled(row.state) then Rejected(UnhandledState(row.state))
    else match viewers
      case Rejected(e) => Rejected(e)
      case Pending => Pending
      case Resolved(users) =>
        var stage := StageOf(row);
        if row.batch.None? || row.uploadedBy.None? || stage.None? then Rejected(MissingJoinError)
        else
          var batch := row.batch.value;
          Resolved(Document(row.id, OrElse(row.title, "Untitled"), row.hasFailed,
                            BatchDetails(batch.batchLabel, UnixSeconds(batch.createdAtMs)),
                            row.uploadedBy.value, users, stage.value))
  }

  /** A resolved model carries the row's state, with "uploaded" shown as "processing", and
      the fields of that state: task progress, annotation confidence or completer. */
  lemma DocumentFromRowState(row: DocumentRow, viewers: Settled<seq<BriefUser>>)
    requires DocumentFromRow(row, viewers).Resolved?
    ensures var d := DocumentFromRow(row, viewers).value;
            && StateName(d) == (if row.state == Some("uploaded") then "processing" else row.state.value)
            && (d.stage.Processing? ==> d.stage.task == Task(row.taskCurrentStep, row.taskTotalSteps))
            && (d.stage.Ready? ==> d.stage.annotationConfidence == row.confidence)
            && (d.stage.Complete? ==> Some(d.stage.completedBy) == row.completedBy)
  {
  }

  /** A row in the "failed" state of the column's enumeration is rejected as unhandled. */
  lemma FailedStateRejected(row: DocumentRow, viewers: Settled<seq<BriefUser>>)
    requires row.state == Some("failed")
    ensures DocumentFromRow(row, viewers) == Rejected("Unhandled document state: \"failed\".")
  {
  }

  /** The model depends on the row's state only through the handled branch it selects:
      an "uploaded" row and the same row in "processing" give the same model. */
  lemma UploadedAsProcessing(row: DocumentRow, viewers: Settled<seq<BriefUser>>)
    requires row.state == Some("uploaded")
    ensures DocumentFromRow(row, viewers) == DocumentFromRow(row.(state := Some("processing")), viewers)
  {
  }

  /** What `getDocumentCacheKey` accepts: an id or a document model. */
  datatype DocumentRef = DocumentId(id: string) | DocumentModel(document: Document)

  const DocumentKeyPrefix := "models.document."

  /** The id a reference names. */
  function RefId(ref: DocumentRef): string {
    match ref
    case DocumentId(id) => id
    case DocumentModel(d) => d.id
  }

  /** `getDocumentCacheKey`. */
  function DocumentCacheKey(ref: DocumentRef): (k: string)
    ensures |k| == |DocumentKeyPrefix| + |RefId(ref)|
    ensures k[..|DocumentKeyPrefix|] == DocumentKeyPrefix && k[|DocumentKeyPrefix|..] == RefId(ref)
  {
    DocumentKeyPrefix + RefId(ref)
  }

  /** A model and its id share a key, and different ids have different keys. */
  lemma DocumentCacheKeyById(d: Document, id: string)
    ensures DocumentCacheKey(DocumentModel(d)) == DocumentCacheKey(DocumentId(d.id))
    ensures DocumentCacheKey(DocumentId(id)) == DocumentCacheKey(DocumentId(d.id)) <==> id == d.id
  {
    var a, b := DocumentCacheKey(DocumentId(id)), DocumentCacheKey(DocumentId(d.id));
    if a == b {
      assert id == a[|DocumentKeyPrefix|..] == b[|DocumentKeyPrefix|..] == d.id;
    }
  }
}
