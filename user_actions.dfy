/** The current-user action creators. */
module UserActions {
  import opened Wrappers
  import opened Envelope

  datatype Payload =
    | SetCurrentUserPayload(user: Ref)
    | ClearCurrentUserPayload
    | MarkDocumentAsViewingPayload(docId: Option<string>, user: Ref)

  function TypeOf(p: Payload): string {
    match p
    case SetCurrentUserPayload(_) => "SET CURRENT USER"
    case ClearCurrentUserPayload => "CLEAR CURRENT USER"
    case MarkDocumentAsViewingPayload(_, _) => "MARK DOCUMENT AS VIEWING"
  }

  predicate ServerBound(p: Payload) {
    p.MarkDocumentAsViewingPayload?
  }

  predicate Consistent(a: Action<Payload>) {
    Conforms(a, TypeOf, ServerBound)
  }

  function SetCurrentUser(user: Ref): (a: Action<Payload>)
    ensures Consistent(a) && a.meta == LocalMeta
    ensures a.payload == SetCurrentUserPayload(user)
  {
    var p := SetCurrentUserPayload(user);
    Action(TypeOf(p), LocalMeta, p)
  }

  function ClearCurrentUser(): (a: Action<Payload>)
    ensures Consistent(a) && a.meta == LocalMeta && a.payload == ClearCurrentUserPayload
  {
    Action(TypeOf(ClearCurrentUserPayload), LocalMeta, ClearCurrentUserPayload)
  }

  /** `markCurrentDocumentAsViewing(user, project, docId)`; a null `docId` (viewing nothing)
      is carried as `None`. */
  function MarkCurrentDocumentAsViewing(user: Ref, project: Ref, docId: Option<string>): (a: Action<Payload>)
    ensures Consistent(a) && a.meta == ServerMeta(user.id, project.id)
    ensures a.payload == MarkDocumentAsViewingPayload(docId, user)
  {
    var p := MarkDocumentAsViewingPayload(docId, user);
    Action(TypeOf(p), ServerMeta(user.id, project.id), p)
  }
}
