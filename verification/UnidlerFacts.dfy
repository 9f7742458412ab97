/** What a run of Unidle does to each kind of object, read off its specification. */
module UnidlerFacts {
  import opened Clusters
  import opened Patches
  import opened Idlers
  import opened Unidlers

  /** Every step of Unidle touches one kind of object only. */
  lemma WokenOthers(name: string, space: Space, view: Space, env: Env, k: Key)
    requires k in space && !k.Dep?
    ensures WokenFrom(name, space, view, env)[k] == space[k]
  {
    assert k !in Select(view, env.order, Watched);
  }

  lemma StrippedOthers(name: string, space: Space, ings: Space, env: Env, k: Key)
    requires k in space && !k.Ing?
    ensures StrippedFrom(name, space, ings, env)[k] == space[k]
  {
    assert k !in Select(ings, env.order, AllIngresses);
  }

  lemma StrippedIngress(name: string, space: Space, ings: Space, env: Env, k: Key)
    requires k in space && k.Ing? && Enumerates(env.order, space) && ings.Keys == space.Keys
    ensures StrippedFrom(name, space, ings, env)[k]
         == if env.listsIngresses && k !in env.faults then Written(name, Strip, ings[k], space[k]) else space[k]
  {
    assert k in Select(ings, env.order, AllIngresses);
  }

  // ---------------------------------------------------------------- with Lists that may be out of date

  /** A deployment is patched when it is listed as watched and its patch goes through; no other failure
      matters, and nothing later in the run depends on this one. */
  lemma UnidledFromDeployment(name: string, space: Space, view: Space, ings: Space, env: Env, k: Key)
    requires WellFormed(space, env) && view.Keys == space.Keys && k in space && k.Dep?
    ensures UnidledFrom(name, space, view, ings, env)[k]
         == if env.listsDeployments && Has(view[k].labels, Watch, "true") && k !in env.faults
            then Written(name, Wake, view[k], space[k]) else space[k]
  {
    assert k in Select(view, env.order, Watched) <==> Has(view[k].labels, Watch, "true");
    StrippedOthers(name, WokenFrom(name, space, view, env), ings, env, k);
  }

  /** An ingress is stripped even when deployments could not be scaled. */
  lemma UnidledFromIngress(name: string, space: Space, view: Space, ings: Space, env: Env, k: Key)
    requires WellFormed(space, env) && ings.Keys == space.Keys && k in space && k.Ing?
    ensures UnidledFrom(name, space, view, ings, env)[k]
         == if env.listsDeployments && env.listsIngresses && k !in env.faults
            then Written(name, Strip, ings[k], space[k]) else space[k]
  {
    WokenOthers(name, space, view, env, k);
    StrippedIngress(name, WokenFrom(name, space, view, env), ings, env, k);
  }

  lemma UnidledFromNamespace(name: string, space: Space, view: Space, ings: Space, env: Env)
    requires Ns in space
    ensures UnidledFrom(name, space, view, ings, env)[Ns]
         == if env.listsDeployments && Ns !in env.faults then Apply(MarkPatch("false"), space[Ns]) else space[Ns]
  {
    WokenOthers(name, space, view, env, Ns);
    StrippedOthers(name, WokenFrom(name, space, view, env), ings, env, Ns);
  }

  // ---------------------------------------------------------------- with up-to-date Lists

  lemma UnidledDeployment(name: string, space: Space, env: Env, k: Key)
    requires WellFormed(space, env) && k in space && k.Dep?
    ensures Unidled(name, space, env)[k]
         == if env.listsDeployments && Has(space[k].labels, Watch, "true") && k !in env.faults
            then Written(name, Wake, space[k], space[k]) else space[k]
  {
    UnidledFromDeployment(name, space, space, WokenFrom(name, space, space, env), env, k);
  }

  lemma UnidledIngress(name: string, space: Space, env: Env, k: Key)
    requires WellFormed(space, env) && k in space && k.Ing?
    ensures Unidled(name, space, env)[k]
         == if env.listsDeployments && env.listsIngresses && k !in env.faults
            then Written(name, Strip, space[k], space[k]) else space[k]
  {
    WokenOthers(name, space, space, env, k);
    UnidledFromIngress(name, space, space, WokenFrom(name, space, space, env), env, k);
  }

  lemma UnidledNamespace(name: string, space: Space, env: Env)
    requires Ns in space
    ensures Unidled(name, space, env)[Ns]
         == if env.listsDeployments && Ns !in env.faults then Apply(MarkPatch("false"), space[Ns]) else space[Ns]
  {
    UnidledFromNamespace(name, space, space, WokenFrom(name, space, space, env), env);
  }

  // ---------------------------------------------------------------- the handler's last gates

  /** A request may start an unidle unless the namespace is locked or the listing answers and shows a
      deployment labelled force-scaled=true. */
  lemma MayStartIff(space: Space, env: Env, locked: bool)
    ensures MayStart(space, env, locked) <==>
              && !locked
              && (env.listsDeployments ==>
                    forall k :: k in space && k.Dep? && ForceScaled in space[k].labels ==>
                      space[k].labels[ForceScaled] != "true")
  {
    assert ForceScaledSeen(space) <==>
             exists k :: k in space && k.Dep? && ForceScaled in space[k].labels
                 && space[k].labels[ForceScaled] == "true" by {
      assert forall k :: k in space ==>
        (Scaled.Selects(k, space[k]) <==>
           k.Dep? && ForceScaled in space[k].labels && space[k].labels[ForceScaled] == "true");
    }
  }
}
