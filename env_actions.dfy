/** The environment action creator. */
module EnvActions {
  import opened Wrappers
  import opened Envelope

  /** `initEnv(env)`: the environment settings, carried as they are, in a local envelope. */
  function InitEnv(env: Opaque): (a: Action<Opaque>)
    ensures a.actionType == "INIT ENVIRONMENT"
    ensures a.meta == LocalMeta && WellRouted(a.meta)
    ensures a.payload == env
  {
    Action("INIT ENVIRONMENT", LocalMeta, env)
  }
}
