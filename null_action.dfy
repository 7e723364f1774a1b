/** The action that does nothing. */
module NullActions {
  import opened Envelope

  /** `nullAction()`: no arguments, so every call gives the same local envelope. */
  function NullAction(): (a: Action<()>)
    ensures a.actionType == "NULL ACTION"
    ensures a.meta == LocalMeta && WellRouted(a.meta)
  {
    Action("NULL ACTION", LocalMeta, ())
  }
}
