/** Complete runs on one namespace, one after the other. */
module Calls {
  import opened Clusters
  import opened Idlers
  import opened Unidlers

  datatype Call = IdleCall(env: Env, forceIdle: bool, forceScale: bool) | UnidleCall(env: Env)

  /** What the two Lists of a run show: the deployments as in `view`, the ingresses as in `ings`. */
  datatype Shown = Shown(view: Space, ings: Space)

  ghost function CalledFrom(cfg: Config, name: string, space: Space, call: Call, shown: Shown): (r: Space)
    requires Ns in space
    ensures r.Keys == space.Keys
  {
    match call
    case IdleCall(env, fi, fs) => IdleRunFrom(cfg, name, space[Ns], space, shown.view, shown.ings, env, fi, fs)
    case UnidleCall(env) => UnidledFrom(name, space, shown.view, shown.ings, env)
  }

  /** The same when each List shows the present. */
  ghost function Called(cfg: Config, name: string, space: Space, call: Call): (r: Space)
    requires Ns in space
    ensures r.Keys == space.Keys
  {
    match call
    case IdleCall(env, fi, fs) => IdleRun(cfg, name, space[Ns], space, env, fi, fs)
    case UnidleCall(env) => Unidled(name, space, env)
  }
}
