/** The project action creators. */
module ProjectActions {
  import opened Wrappers
  import opened Envelope

  datatype Payload =
    | CreateNewProjectPayload(name: string, teamId: string)
    | ProjectAddedPayload(project: Ref)

  function TypeOf(p: Payload): string {
    match p
    case CreateNewProjectPayload(_, _) => "CREATE NEW PROJECT"
    case ProjectAddedPayload(_) => "PROJECT ADDED"
  }

  predicate ServerBound(p: Payload) {
    p.CreateNewProjectPayload?
  }

  predicate Consistent(a: Action<Payload>) {
    Conforms(a, TypeOf, ServerBound)
  }

  /** The project a creation request is scoped to: a placeholder, not a project id. */
  const NewProject := "NEW"

  function CreateNewProject(user: Ref, name: string, teamId: string): (a: Action<Payload>)
    ensures Consistent(a) && a.meta == ServerMeta(user.id, NewProject)
    ensures a.payload == CreateNewProjectPayload(name, teamId)
  {
    var p := CreateNewProjectPayload(name, teamId);
    Action(TypeOf(p), ServerMeta(user.id, NewProject), p)
  }

  function ProjectAdded(project: Ref, user: Ref): (a: Action<Payload>)
    ensures Consistent(a) && a.meta == LocalMetaBy(Some(user.id))
    ensures a.payload == ProjectAddedPayload(project)
  {
    var p := ProjectAddedPayload(project);
    Action(TypeOf(p), LocalMetaBy(Some(user.id)), p)
  }
}
