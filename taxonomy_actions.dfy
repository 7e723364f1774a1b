/** The taxonomy action creators: pure constructors of envelopes. Six of them are
    server-bound and scoped to the caller's project; the other seven stay on the client. */
module TaxonomyActions {
  import opened Wrappers
  import opened Envelope
  import TaxonomyModel

  /** The fields each creator puts beside `meta` and `type`. Where the source reuses the
      name `taxonomy` for values of different kinds, the fields here are named by kind:
      `taxonomy` is a taxonomy id, `selected` an optional taxonomy id, `importTaxonomy`
      the imported document and `tree` a materialized taxonomy. `text` is a term label. */
  datatype Payload =
    | AddTaxonomyPayload(id: string, name: string, importTaxonomy: TaxonomyModel.Export)
    | AddToTaxonomyPayload(id: string, text: string, parent: Option<string>, taxonomy: string)
    | ChangeSelectedTaxonomyPayload(selected: Option<string>)
    | CompletedTaxonomyImportPayload(id: string, tree: TaxonomyModel.Tree)
    | CreateTaxonomyImportPayload(id: string, name: string, totalSteps: int)
    | FilterTaxonomyRequestPayload(filter: string, taxonomyId: string)
    | FilterTaxonomyResponsePayload(filter: string, tree: TaxonomyModel.Tree, taxonomyId: string)
    | RemoveFromTaxonomyPayload(id: string, taxonomy: string)
    | RenameTaxonomyPayload(id: string, newName: string)
    | RenameTermInTaxonomyPayload(id: string, newName: string, taxonomy: string)
    | UpdateClientTaxonomyIdPayload(clientId: string, id: string)
    | UpdateClientTaxonomyTermIdPayload(clientId: string, id: string, taxonomyId: string)
    | UpdateClientTaxonomyImportPayload(id: string, currentStep: int, totalSteps: int)

  /** The `type` string of each kind of payload. */
  function TypeOf(p: Payload): string {
    match p
    case AddTaxonomyPayload(_, _, _) => "ADD TAXONOMY"
    case AddToTaxonomyPayload(_, _, _, _) => "ADD TO TAXONOMY"
    case ChangeSelectedTaxonomyPayload(_) => "CHANGE SELECTED TAXONOMY"
    case CompletedTaxonomyImportPayload(_, _) => "COMPLETED TAXONOMY IMPORT"
    case CreateTaxonomyImportPayload(_, _, _) => "CREATE TAXONOMY IMPORT"
    case FilterTaxonomyRequestPayload(_, _) => "FILTER TAXONOMY REQUEST"
    case FilterTaxonomyResponsePayload(_, _, _) => "FILTER TAXONOMY RESPONSE"
    case RemoveFromTaxonomyPayload(_, _) => "REMOVE FROM TAXONOMY"
    case RenameTaxonomyPayload(_, _) => "RENAME TAXONOMY"
    case RenameTermInTaxonomyPayload(_, _, _) => "RENAME TERM IN TAXONOMY"
    case UpdateClientTaxonomyIdPayload(_, _) => "UPDATE CLIENT TAXONOMY ID"
    case UpdateClientTaxonomyTermIdPayload(_, _, _) => "UPDATE CLIENT TAXONOMY TERM ID"
    case UpdateClientTaxonomyImportPayload(_, _, _) => "UPDATE TAXONOMY IMPORT"
  }

  /** The kinds of payload whose creator sends them to the server. */
  predicate ServerBound(p: Payload) {
    || p.AddTaxonomyPayload? || p.AddToTaxonomyPayload? || p.FilterTaxonomyRequestPayload?
    || p.RemoveFromTaxonomyPayload? || p.RenameTaxonomyPayload? || p.RenameTermInTaxonomyPayload?
  }

  /** Two payloads of different kinds never share a `type`: a receiver can tell the kind
      from the type string alone. */
  lemma TypeOfDistinguishesKinds(p: Payload, q: Payload)
    requires TypeOf(p) == TypeOf(q)
    ensures p.AddTaxonomyPayload? == q.AddTaxonomyPayload?
    ensures p.AddToTaxonomyPayload? == q.AddToTaxonomyPayload?
    ensures p.ChangeSelectedTaxonomyPayload? == q.ChangeSelectedTaxonomyPayload?
    ensures p.CompletedTaxonomyImportPayload? == q.CompletedTaxonomyImportPayload?
    ensures p.CreateTaxonomyImportPayload? == q.CreateTaxonomyImportPayload?
    ensures p.FilterTaxonomyRequestPayload? == q.FilterTaxonomyRequestPayload?
    ensures p.FilterTaxonomyResponsePayload? == q.FilterTaxonomyResponsePayload?
    ensures p.RemoveFromTaxonomyPayload? == q.RemoveFromTaxonomyPayload?
    ensures p.RenameTaxonomyPayload? == q.RenameTaxonomyPayload?
    ensures p.RenameTermInTaxonomyPayload? == q.RenameTermInTaxonomyPayload?
    ensures p.UpdateClientTaxonomyIdPayload? == q.UpdateClientTaxonomyIdPayload?
    ensures p.UpdateClientTaxonomyTermIdPayload? == q.UpdateClientTaxonomyTermIdPayload?
    ensures p.UpdateClientTaxonomyImportPayload? == q.UpdateClientTaxonomyImportPayload?
  {
  }

  /** What every envelope of this file satisfies: its type is that of its payload, it is
      server-bound exactly for the six server kinds, and then it names its project. */
  predicate Consistent(a: Action<Payload>) {
    Conforms(a, TypeOf, ServerBound)
  }

  /** `addTaxonomy(name, project, taxonomy, user)`; `freshId` is the `cuid()` it draws. */
  function AddTaxonomy(freshId: string, name: string, project: Ref, taxonomy: TaxonomyModel.Export,
                       user: Ref): (a: Action<Payload>)
    ensures Consistent(a) && a.meta == ServerMeta(user.id, project.id)
    ensures a.payload.AddTaxonomyPayload? && a.payload.id == freshId
    ensures a.payload.name == name && a.payload.importTaxonomy == taxonomy
  {
    var p := AddTaxonomyPayload(freshId, name, taxonomy);
    Action(TypeOf(p), ServerMeta(user.id, project.id), p)
  }

  /** `addToTaxonomy(label, parent, project, user, taxonomy)`; `freshId` is its `cuid()`. */
  function AddToTaxonomy(freshId: string, text: string, parent: Option<string>, project: Ref,
                         user: Ref, taxonomy: string): (a: Action<Payload>)
    ensures Consistent(a) && a.meta == ServerMeta(user.id, project.id)
    ensures a.payload == AddToTaxonomyPayload(freshId, text, parent, taxonomy)
  {
    var p := AddToTaxonomyPayload(freshId, text, parent, taxonomy);
    Action(TypeOf(p), ServerMeta(user.id, project.id), p)
  }

  function ChangeSelectedTaxonomy(taxonomy: Option<string>): (a: Action<Payload>)
    ensures Consistent(a) && a.meta == LocalMeta
    ensures a.payload == ChangeSelectedTaxonomyPayload(taxonomy)
  {
    var p := ChangeSelectedTaxonomyPayload(taxonomy);
    Action(TypeOf(p), LocalMeta, p)
  }

  function CompletedTaxonomyImport(id: string, tax: TaxonomyModel.Tree): (a: Action<Payload>)
    ensures Consistent(a) && a.meta == LocalMeta
    ensures a.payload == CompletedTaxonomyImportPayload(id, tax)
  {
    var p := CompletedTaxonomyImportPayload(id, tax);
    Action(TypeOf(p), LocalMeta, p)
  }

  function CreateTaxonomyImport(id: string, name: string, totalSteps: int): (a: Action<Payload>)
    ensures Consistent(a) && a.meta == LocalMeta
    ensures a.payload == CreateTaxonomyImportPayload(id, name, totalSteps)
  {
    var p := CreateTaxonomyImportPayload(id, name, totalSteps);
    Action(TypeOf(p), LocalMeta, p)
  }

  function FilterTaxonomyRequest(filter: string, taxonomyId: string, project: Ref, user: Ref): (a: Action<Payload>)
    ensures Consistent(a) && a.meta == ServerMeta(user.id, project.id)
    ensures a.payload == FilterTaxonomyRequestPayload(filter, taxonomyId)
  {
    var p := FilterTaxonomyRequestPayload(filter, taxonomyId);
    Action(TypeOf(p), ServerMeta(user.id, project.id), p)
  }

  /** The one local creator that records its initiator. */
  function FilterTaxonomyResponse(filter: string, taxonomy: TaxonomyModel.Tree, taxonomyId: string,
                                  user: Ref): (a: Action<Payload>)
    ensures Consistent(a) && a.meta == LocalMetaBy(Some(user.id))
    ensures a.payload == FilterTaxonomyResponsePayload(filter, taxonomy, taxonomyId)
  {
    var p := FilterTaxonomyResponsePayload(filter, taxonomy, taxonomyId);
    Action(TypeOf(p), LocalMetaBy(Some(user.id)), p)
  }

  function RemoveFromTaxonomy(id: string, project: Ref, taxonomy: string, user: Ref): (a: Action<Payload>)
    ensures Consistent(a) && a.meta == ServerMeta(user.id, project.id)
    ensures a.payload == RemoveFromTaxonomyPayload(id, taxonomy)
  {
    var p := RemoveFromTaxonomyPayload(id, taxonomy);
    Action(TypeOf(p), ServerMeta(user.id, project.id), p)
  }

  function RenameTaxonomy(id: string, newName: string, project: Ref, user: Ref): (a: Action<Payload>)
    ensures Consistent(a) && a.meta == ServerMeta(user.id, project.id)
    ensures a.payload == RenameTaxonomyPayload(id, newName)
  {
    var p := RenameTaxonomyPayload(id, newName);
    Action(TypeOf(p), ServerMeta(user.id, project.id), p)
  }

  function RenameTermInTaxonomy(id: string, newName: string, project: Ref, taxonomy: string,
                                user: Ref): (a: Action<Payload>)
    ensures Consistent(a) && a.meta == ServerMeta(user.id, project.id)
    ensures a.payload == RenameTermInTaxonomyPayload(id, newName, taxonomy)
  {
    var p := RenameTermInTaxonomyPayload(id, newName, taxonomy);
    Action(TypeOf(p), ServerMeta(user.id, project.id), p)
  }

  function UpdateClientTaxonomyId(clientId: string, id: string): (a: Action<Payload>)
    ensures Consistent(a) && a.meta == LocalMeta
    ensures a.payload == UpdateClientTaxonomyIdPayload(clientId, id)
  {
    var p := UpdateClientTaxonomyIdPayload(clientId, id);
    Action(TypeOf(p), LocalMeta, p)
  }

  function UpdateClientTaxonomyTermId(clientId: string, id: string, taxonomyId: string): (a: Action<Payload>)
    ensures Consistent(a) && a.meta == LocalMeta
    ensures a.payload == UpdateClientTaxonomyTermIdPayload(clientId, id, taxonomyId)
  {
    var p := UpdateClientTaxonomyTermIdPayload(clientId, id, taxonomyId);
    Action(TypeOf(p), LocalMeta, p)
  }

  function UpdateClientTaxonomyImport(id: string, currentStep: int, totalSteps: int): (a: Action<Payload>)
    ensures Consistent(a) && a.meta == LocalMeta
    ensures a.payload == UpdateClientTaxonomyImportPayload(id, currentStep, totalSteps)
  {
    var p := UpdateClientTaxonomyImportPayload(id, currentStep, totalSteps);
    Action(TypeOf(p), LocalMeta, p)
  }
}
