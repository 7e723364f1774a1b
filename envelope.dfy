/** The action envelope every state change travels in: a type string, the payload and
    routing metadata (who initiated it, which project it is scoped to, and whether it
    must go to the server before it is applied). */
module Envelope {
  import opened Wrappers

  datatype Meta = Meta(initiatedBy: Option<string>, project: Option<string>, sendToServer: bool)

  datatype Action<+P> = Action(actionType: string, meta: Meta, payload: P)

  /** A user or a project as the action creators see it: the id they read, and the rest
      of the record, which they carry along unchanged. */
  datatype Ref = Ref(id: string, details: Opaque)

  /** Server-bound: sent to the server, carrying its initiator and its project. */
  function ServerMeta(userId: string, projectId: string): (m: Meta)
    ensures m.sendToServer && m.project == Some(projectId) && m.initiatedBy == Some(userId)
    ensures WellRouted(m)
  {
    Meta(Some(userId), Some(projectId), true)
  }

  /** Local and anonymous: applied on the client only, `initiatedBy` null, no project. */
  const LocalMeta: Meta := Meta(None, None, false)

  /** Local, but recording who caused it. */
  function LocalMetaBy(initiatedBy: Option<string>): (m: Meta)
    ensures !m.sendToServer && m.project.None? && m.initiatedBy == initiatedBy
    ensures WellRouted(m)
  {
    Meta(initiatedBy, None, false)
  }

  /** The routing invariant: a server-bound envelope names the project whose room it reaches. */
  predicate WellRouted(m: Meta) {
    m.sendToServer ==> m.project.Some?
  }

  /** What every envelope of one creator file satisfies: its type is the one of its kind
      of payload, it is server-bound exactly for the server kinds, and it is well routed. */
  predicate Conforms<P>(a: Action<P>, typeOf: P -> string, serverBound: P -> bool) {
    && a.actionType == typeOf(a.payload)
    && a.meta.sendToServer == serverBound(a.payload)
    && WellRouted(a.meta)
  }
}
