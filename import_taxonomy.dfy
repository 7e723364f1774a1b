/** Importing a taxonomy from the client: one `addTaxonomy` envelope to the server, and the
    server's answer dispatched into the store. */
module ImportTaxonomyThunk {
  import opened Wrappers
  import opened Envelope
  import TaxonomyModel
  import TaxonomyActions
  import ClientStore

  /** `importTaxonomy(name, taxonomy)(dispatch, getState)`. `freshId` is the `cuid()` of the
      envelope and `respond` the server's answer to `sendAction` (`None` when it never
      resolves). Returns the envelope sent. */
  method ImportTaxonomy(store: ClientStore.Store, name: string, taxonomy: TaxonomyModel.Export, freshId: string,
                        respond: Action<TaxonomyActions.Payload> -> Option<Opaque>)
    returns (sent: Option<Action<TaxonomyActions.Payload>>)
    modifies store`dispatched
    ensures sent.Some? <==> store.currentProject.Some? && store.currentUser.Some?
    ensures sent.Some? ==>
              && sent.value == TaxonomyActions.AddTaxonomy(freshId, name, store.currentProject.value, taxonomy,
                                                           store.currentUser.value)
              && sent.value.meta.sendToServer && sent.value.meta.project == Some(store.currentProject.value.id)
    ensures store.dispatched == old(store.dispatched) +
              if sent.Some? && respond(sent.value).Some? then [respond(sent.value).value] else []
  {
    sent := None;
    var project, user := store.currentProject, store.currentUser;
    if project.Some? && user.Some? {
      var action := TaxonomyActions.AddTaxonomy(freshId, name, project.value, taxonomy, user.value);
      sent := Some(action);
      match respond(action)
      case None =>
      case Some(reply) =>
        store.Dispatch(reply);
    }
  }
}
