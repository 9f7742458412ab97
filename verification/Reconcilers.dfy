/** The namespace reconciler: internal/controllers/idling_controller.go. */
module Reconcilers {
  import opened Clusters
  import opened Patches
  import opened Idlers
  import opened Unidlers

  /** The three trigger labels, in the order in which Reconcile looks at them. */
  function Triggers(space: Space): seq<Tag>
    requires Ns in space
  {
    var labels := space[Ns].labels;
    (if Has(labels, ForceScaled, "true") then [ForceScaled] else [])
    + (if Has(labels, ForceIdled, "true") then [ForceIdled] else [])
    + (if Has(labels, UnidleNow, "true") then [UnidleNow] else [])
  }

  /** What one trigger asks for. */
  ghost function Handled(cfg: Config, name: string, space: Space, env: Env, trigger: Tag): Space
    requires Ns in space
  {
    match trigger
    case ForceScaled => IdleRun(cfg, name, space[Ns], space, env, false, true)
    case ForceIdled => IdleRun(cfg, name, space[Ns], space, env, true, false)
    case _ => Unidled(name, space, env)
  }

  /** The label patch that consumes a trigger; sent whatever became of the work before it. */
  function Consumed(name: string, space: Space, trigger: Tag, fault: bool): Space {
    Patched(name, space, space, [Ns], Clear(trigger), if fault then {Ns} else {})
  }

  /** One Reconcile: the first trigger is handled and consumed, the others stay. */
  ghost function Reconciled(cfg: Config, name: string, space: Space, env: Env): Space
    requires Ns in space
  {
    if Triggers(space) == [] then space
    else Consumed(name, Handled(cfg, name, space, env, Triggers(space)[0]), Triggers(space)[0], env.clearFault)
  }

  /** Reconciled, branch by branch. */
  lemma ReconciledCases(cfg: Config, name: string, space: Space, env: Env)
    requires Ns in space
    ensures var triggers, labels, after := Triggers(space), space[Ns].labels, Reconciled(cfg, name, space, env);
            if Has(labels, ForceScaled, "true") then
              && triggers != [UnidleNow]
              && after == Consumed(name, IdleRun(cfg, name, space[Ns], space, env, false, true), ForceScaled,
                                   env.clearFault)
            else if Has(labels, ForceIdled, "true") then
              && triggers != [UnidleNow]
              && after == Consumed(name, IdleRun(cfg, name, space[Ns], space, env, true, false), ForceIdled,
                                   env.clearFault)
            else if Has(labels, UnidleNow, "true") then
              && triggers == [UnidleNow]
              && after == Consumed(name, Unidled(name, space, env), UnidleNow, env.clearFault)
            else
              triggers == [] && after == space
  {
    var triggers, labels := Triggers(space), space[Ns].labels;
    if Has(labels, ForceScaled, "true") {
      assert triggers[0] == ForceScaled;
    } else if Has(labels, ForceIdled, "true") {
      assert triggers[0] == ForceIdled;
    }
  }

  class Reconciler {
    const cluster: Cluster
    const idler: Idler
    const unidler: Unidler

    constructor (idler: Idler, unidler: Unidler)
      requires idler.cluster == unidler.cluster
      ensures this.idler == idler && this.unidler == unidler && cluster == idler.cluster
    {
      this.cluster := idler.cluster;
      this.idler := idler;
      this.unidler := unidler;
    }

    ghost predicate Valid() {
      idler.cluster == cluster && unidler.cluster == cluster
    }

    /** `found` is false when the namespace cannot be read. The reconciler runs Unidle without taking
        the lock, and Unidle releases it. */
    method Reconcile(name: string, found: bool, env: Env)
      requires Valid() && name in cluster.spaces && WellFormed(cluster.spaces[name], env)
      modifies cluster, unidler`locks
      ensures cluster.spaces == old(cluster.spaces)[name :=
                if found then Reconciled(idler.cfg, name, old(cluster.spaces)[name], env)
                else old(cluster.spaces)[name]]
      ensures unidler.locks == if found && Triggers(old(cluster.spaces)[name]) == [UnidleNow]
                               then old(unidler.locks) - {name} else old(unidler.locks)
    {
      Replaced(cluster.spaces, name, cluster.spaces[name], cluster.spaces[name]);
      ReconciledCases(idler.cfg, name, cluster.spaces[name], env);
      if !found {
        return;
      }
      var namespace := cluster.spaces[name][Ns];
      if Has(namespace.labels, ForceScaled, "true") {
        ForceIdle(name, namespace, env, false, true, ForceScaled);
        return;
      }
      if Has(namespace.labels, ForceIdled, "true") {
        ForceIdle(name, namespace, env, true, false, ForceIdled);
        return;
      }
      if Has(namespace.labels, UnidleNow, "true") {
        ForceUnidle(name, env);
      }
    }

    /** The last branch. */
    method ForceUnidle(name: string, env: Env)
      requires Valid() && name in cluster.spaces && WellFormed(cluster.spaces[name], env)
      modifies cluster, unidler`locks
      ensures cluster.spaces == old(cluster.spaces)[name :=
                Consumed(name, Unidled(name, old(cluster.spaces)[name], env), UnidleNow, env.clearFault)]
      ensures unidler.locks == old(unidler.locks) - {name}
    {
      ghost var before := cluster.spaces;
      unidler.Unidle(name, env);
      Replaced(before, name, cluster.spaces[name], Consumed(name, cluster.spaces[name], UnidleNow, env.clearFault));
      ClearTrigger(name, UnidleNow, env.clearFault);
    }

    /** The common shape of the first two branches. */
    method ForceIdle(name: string, namespace: Object, env: Env, forceIdle: bool, forceScale: bool, trigger: Tag)
      requires Valid() && name in cluster.spaces && WellFormed(cluster.spaces[name], env)
      modifies cluster
      ensures cluster.spaces == old(cluster.spaces)[name :=
                Consumed(name,
                         IdleRun(idler.cfg, name, namespace, old(cluster.spaces)[name], env, forceIdle, forceScale),
                         trigger, env.clearFault)]
    {
      ghost var before := cluster.spaces;
      idler.KubernetesServiceIdler(name, namespace, env, forceIdle, forceScale);
      Replaced(before, name, cluster.spaces[name], Consumed(name, cluster.spaces[name], trigger, env.clearFault));
      ClearTrigger(name, trigger, env.clearFault);
    }

    method ClearTrigger(name: string, trigger: Tag, fault: bool)
      requires name in cluster.spaces && Ns in cluster.spaces[name]
      modifies cluster
      ensures cluster.spaces == old(cluster.spaces)[name := Consumed(name, old(cluster.spaces)[name], trigger, fault)]
    {
      MarkStep(cluster.spaces, name, Clear(trigger), if fault then {Ns} else {});
      var _ := cluster.PatchObject(name, Ns, ClearPatch(trigger), fault);
    }
  }
}
