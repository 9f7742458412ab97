/** Termination and order of the label-driven reconciler. */
module ReconcilerFacts {
  import opened Options
  import opened Clusters
  import opened Patches
  import opened Idlers
  import opened Reconcilers
  import opened IdlerFacts
  import opened UnidlerFacts

  /** Handling a trigger leaves all three trigger labels as they were. */
  lemma HandledKeepsTriggers(cfg: Config, name: string, space: Space, env: Env, trigger: Tag)
    requires Ns in space
    ensures Triggers(Handled(cfg, name, space, env, trigger)) == Triggers(space)
  {
    var after := Handled(cfg, name, space, env, trigger);
    match trigger
    case ForceScaled => IdleRunNamespace(cfg, name, space[Ns], space, env, false, true);
    case ForceIdled => IdleRunNamespace(cfg, name, space[Ns], space, env, true, false);
    case _ => UnidledNamespace(name, space, env);
  }

  /** Consuming the first trigger leaves exactly the others, unless the label patch fails. */
  lemma ConsumedDrops(name: string, space: Space, fault: bool)
    requires Ns in space && Triggers(space) != []
    ensures Triggers(Consumed(name, space, Triggers(space)[0], fault))
         == if fault then Triggers(space) else Triggers(space)[1..]
  {
    var t := Triggers(space)[0];
    if fault {
      assert Consumed(name, space, t, true)[Ns] == space[Ns];
    } else {
      TriggerCleared(name, space, t);
      OthersStay(space, Consumed(name, space, t, false));
    }
  }

  lemma OthersStay(space: Space, after: Space)
    requires Ns in space && Ns in after && Triggers(space) != []
    requires Triggers(space)[0] !in after[Ns].labels
    requires forall u :: u != Triggers(space)[0] ==> Get(after[Ns].labels, u) == Get(space[Ns].labels, u)
    ensures Triggers(after) == Triggers(space)[1..]
  {
    forall u | u != Triggers(space)[0]
      ensures Has(after[Ns].labels, u, "true") <==> Has(space[Ns].labels, u, "true")
    {
      assert Get(after[Ns].labels, u) == Get(space[Ns].labels, u);
    }
  }

  lemma TriggerCleared(name: string, space: Space, t: Tag)
    requires Ns in space
    ensures var before, after := space[Ns].labels, Consumed(name, space, t, false)[Ns].labels;
            t !in after && forall u :: u != t ==> Get(after, u) == Get(before, u)
  {
    assert Consumed(name, space, t, false)[Ns] == Apply(ClearPatch(t), space[Ns]);
  }

  /** A Reconcile with work to do uses up exactly one trigger when its label patch succeeds and none
      when it fails; without a trigger it is the identity. */
  lemma ReconcileDropsOne(cfg: Config, name: string, space: Space, env: Env)
    requires Ns in space
    ensures var before, after := Triggers(space), Reconciled(cfg, name, space, env);
            && Ns in after
            && (before == [] ==> after == space)
            && (before != [] && env.clearFault ==> Triggers(after) == before)
            && (before != [] && !env.clearFault ==> Triggers(after) == before[1..])
  {
    if Triggers(space) != [] {
      var t := Triggers(space)[0];
      HandledKeepsTriggers(cfg, name, space, env, t);
      ConsumedDrops(name, Handled(cfg, name, space, env, t), env.clearFault);
    }
  }

  /** Any number of Reconciles in a row. */
  ghost function ReconcileAll(cfg: Config, name: string, space: Space, envs: seq<Env>): (r: Space)
    requires Ns in space
    ensures Ns in r
    decreases |envs|
  {
    if envs == [] then space else ReconcileAll(cfg, name, Reconciled(cfg, name, space, envs[0]), envs[1..])
  }

  /** The given triggers handled and consumed one after the other. */
  ghost function HandleAll(cfg: Config, name: string, space: Space, triggers: seq<Tag>, envs: seq<Env>): Space
    requires Ns in space && |triggers| <= |envs|
    decreases |triggers|
  {
    if triggers == [] then space
    else HandleAll(cfg, name, Consumed(name, Handled(cfg, name, space, envs[0], triggers[0]), triggers[0], false),
                   triggers[1..], envs[1..])
  }

  /** With label patches that succeed, enough Reconciles do exactly the pending triggers' work in the
      fixed order and then nothing more; three are always enough. */
  lemma {:induction false} ReconcileDrains(cfg: Config, name: string, space: Space, envs: seq<Env>)
    requires Ns in space && |envs| >= |Triggers(space)|
    requires forall e :: e in envs ==> !e.clearFault
    ensures |Triggers(space)| <= 3
    ensures ReconcileAll(cfg, name, space, envs) == HandleAll(cfg, name, space, Triggers(space), envs)
    ensures Triggers(ReconcileAll(cfg, name, space, envs)) == []
    decreases |envs|
  {
    if envs != [] {
      assert envs[0] in envs;
      ReconcileDropsOne(cfg, name, space, envs[0]);
      ReconcileDrains(cfg, name, Reconciled(cfg, name, space, envs[0]), envs[1..]);
    }
  }

  /** A forced idle that finds a running build does nothing, and its trigger is used up all the same. */
  lemma BuildConsumesTrigger(cfg: Config, name: string, space: Space, env: Env)
    requires Ns in space && Triggers(space) != [] && Triggers(space)[0] in {ForceScaled, ForceIdled}
    requires BuildSeen(cfg, env) && !env.clearFault
    ensures Reconciled(cfg, name, space, env) == space[Ns := Apply(ClearPatch(Triggers(space)[0]), space[Ns])]
    ensures Triggers(Reconciled(cfg, name, space, env)) == Triggers(space)[1..]
  {
    var t := Triggers(space)[0];
    assert Handled(cfg, name, space, env, t) == space;
    assert Consumed(name, space, t, false) == space[Ns := Apply(ClearPatch(t), space[Ns])];
    ReconcileDropsOne(cfg, name, space, env);
  }
}
