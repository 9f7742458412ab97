/** The unidler: Unidle (internal/handlers/unidler/unidler.go), removeCodeFromIngress and
    checkForceScaled (checks.go), and the part of the request handler that starts an unidle (handler.go). */
module Unidlers {
  import opened Options
  import opened CommaList
  import opened Hyphens
  import opened Decimal
  import opened Clusters
  import opened Patches
  import opened Idlers
  import Access
  import Verifier

  // ---------------------------------------------------------------- the effect, declaratively

  /** removeCodeFromIngress on one namespace, when its List shows the ingresses as in `ings`. */
  function StrippedFrom(name: string, space: Space, ings: Space, env: Env): (r: Space)
    ensures r.Keys == space.Keys
  {
    if !env.listsIngresses then space
    else Patched(name, space, ings, Select(ings, env.order, AllIngresses), Strip, env.faults)
  }

  function StrippedSpace(name: string, space: Space, env: Env): (r: Space)
    ensures r.Keys == space.Keys
  {
    StrippedFrom(name, space, space, env)
  }

  /** The scale-up loop on one namespace, over the deployments as the first List shows them in `view`. */
  function WokenFrom(name: string, space: Space, view: Space, env: Env): (r: Space)
    ensures r.Keys == space.Keys
  {
    Patched(name, space, view, Select(view, env.order, Watched), Wake, env.faults)
  }

  /** One run of Unidle on one namespace whose two Lists show `view` and `ings`, which may be out of date.
      A failed deployment patch does not stop the rest. */
  function UnidledFrom(name: string, space: Space, view: Space, ings: Space, env: Env): (r: Space)
    ensures r.Keys == space.Keys
  {
    if !env.listsDeployments then space
    else
      var stripped := StrippedFrom(name, WokenFrom(name, space, view, env), ings, env);
      Patched(name, stripped, stripped, [Ns], Mark("false"), env.faults)
  }

  /** The same from up-to-date Lists; the second is answered after the deployments were scaled. */
  function Unidled(name: string, space: Space, env: Env): (r: Space)
    ensures r.Keys == space.Keys
  {
    UnidledFrom(name, space, space, WokenFrom(name, space, space, env), env)
  }

  /** Some deployment carries force-scaled=true. */
  ghost predicate ForceScaledSeen(space: Space) {
    exists k :: k in space && Scaled.Selects(k, space[k])
  }

  /** The last two gates of the handler: nothing is force-scaled, as far as the listing says, and the
      namespace is not locked. */
  ghost predicate MayStart(space: Space, env: Env, locked: bool) {
    !(env.listsDeployments && ForceScaledSeen(space)) && !locked
  }

  class Unidler {
    const cluster: Cluster
    var locks: set<string>
    const verifiedUnidling: bool
    const secret: string
    const lists: Access.Lists

    constructor (cluster: Cluster, verifiedUnidling: bool, secret: string, lists: Access.Lists)
      ensures this.cluster == cluster && locks == {}
    {
      this.cluster := cluster;
      this.verifiedUnidling := verifiedUnidling;
      this.secret := secret;
      this.lists := lists;
      locks := {};
    }

    method Unidle(name: string, env: Env)
      requires name in cluster.spaces && WellFormed(cluster.spaces[name], env)
      modifies cluster, `locks
      ensures cluster.spaces == old(cluster.spaces)[name := Unidled(name, old(cluster.spaces)[name], env)]
      ensures locks == old(locks) - {name}
    {
      ghost var before := cluster.spaces;
      Replaced(before, name, before[name], before[name]);
      if env.listsDeployments {
        var view := cluster.spaces[name];
        var deployments := Select(view, env.order, Watched);
        SelectLoopable(view, env.order, Watched);
        ScaleUp(name, view, deployments, env.faults);
        Replaced(before, name, cluster.spaces[name], StrippedSpace(name, cluster.spaces[name], env));
        RemoveCodeFromIngress(name, env);
        ghost var stripped := cluster.spaces[name];
        MarkNamespace(name, env.faults);
        Replaced(before, name, stripped, cluster.spaces[name]);
      }
      locks := locks - {name};
    }

    /** The namespace patch at the end of Unidle. */
    method MarkNamespace(name: string, faults: set<Key>)
      requires name in cluster.spaces && Ns in cluster.spaces[name]
      modifies cluster
      ensures var space := old(cluster.spaces)[name];
              cluster.spaces == old(cluster.spaces)[name := Patched(name, space, space, [Ns], Mark("false"), faults)]
    {
      MarkStep(cluster.spaces, name, Mark("false"), faults);
      var _ := cluster.PatchObject(name, Ns, MarkPatch("false"), Ns in faults);
    }

    /** The scale-up loop of Unidle, over the deployments listed in `view`. */
    method ScaleUp(name: string, view: Space, deployments: seq<Key>, faults: set<Key>)
      requires name in cluster.spaces && Loopable(cluster.spaces[name], view, deployments)
      modifies cluster
      ensures cluster.spaces == old(cluster.spaces)[name :=
                Patched(name, old(cluster.spaces)[name], view, deployments, Wake, faults)]
    {
      ghost var before := cluster.spaces;
      LoopEnds(before, name, view, deployments, Wake, faults);
      for i := 0 to |deployments|
        invariant cluster.spaces == before[name := Patched(name, before[name], view, deployments[..i], Wake, faults)]
      {
        LoopStep(before, name, view, deployments, i, Wake, faults);
        var mergePatch := ScaleUpPatch(view[deployments[i]]);
        if mergePatch.Some? {
          var _ := cluster.PatchObject(name, deployments[i], mergePatch.value, deployments[i] in faults);
        }
      }
    }

    method ScaleUpPatch(deploy: Object) returns (mergePatch: Option<Patch>)
      ensures mergePatch == WakePatch(deploy)
    {
      mergePatch := None;
      if Has(deploy.labels, Idled, "true") && deploy.replicas == 0 {
        var newReplicas := 1;
        if UnidleReplicas in deploy.annotations {
          var unidleReplicas := Atoi(deploy.annotations[UnidleReplicas]);
          if unidleReplicas.Number? && unidleReplicas.n > 0 {
            newReplicas := unidleReplicas.n;
          }
        }
        mergePatch := Some(Patch(map[Idled := Some("false"), ForceIdled := None, ForceScaled := None],
                                 map[IdledAt := None],
                                 Some(newReplicas)));
      }
    }

    method RemoveCodeFromIngress(name: string, env: Env)
      requires name in cluster.spaces && WellFormed(cluster.spaces[name], env)
      modifies cluster
      ensures cluster.spaces == old(cluster.spaces)[name := StrippedSpace(name, old(cluster.spaces)[name], env)]
    {
      ghost var before := cluster.spaces;
      Replaced(before, name, before[name], before[name]);
      if !env.listsIngresses {
        return;
      }
      var view := cluster.spaces[name];
      var ingresses := Select(view, env.order, AllIngresses);
      SelectLoopable(view, env.order, AllIngresses);
      StripEach(name, view, ingresses, env.faults);
    }

    /** The loop of removeCodeFromIngress. */
    method StripEach(name: string, view: Space, ingresses: seq<Key>, faults: set<Key>)
      requires name in cluster.spaces && Loopable(cluster.spaces[name], view, ingresses)
      modifies cluster
      ensures cluster.spaces == old(cluster.spaces)[name :=
                Patched(name, old(cluster.spaces)[name], view, ingresses, Strip, faults)]
    {
      ghost var before := cluster.spaces;
      LoopEnds(before, name, view, ingresses, Strip, faults);
      for i := 0 to |ingresses|
        invariant cluster.spaces == before[name := Patched(name, before[name], view, ingresses[..i], Strip, faults)]
      {
        LoopStep(before, name, view, ingresses, i, Strip, faults);
        var mergePatch := RemoveCodePatch(name, view[ingresses[i]]);
        if mergePatch.Some? {
          var _ := cluster.PatchObject(name, ingresses[i], mergePatch.value, ingresses[i] in faults);
        }
      }
    }

    method RemoveCodePatch(name: string, ingress: Object) returns (mergePatch: Option<Patch>)
      ensures mergePatch == StripPatch(name, ingress)
    {
      var ingressCodes: Option<string>, traefikMiddlewares: Option<string> := None, None;
      var patch := false;
      var ingressValue, traefikValue := "", "";
      if HttpErrors in ingress.annotations {
        ingressValue := ingress.annotations[HttpErrors];
        ingressCodes := RemoveStatusCode(ingressValue, "503");
        patch := true;
      }
      if Middlewares in ingress.annotations {
        traefikValue := ingress.annotations[Middlewares];
        traefikMiddlewares := RemoveStatusCode(traefikValue, Middleware(name));
        patch := true;
      }
      mergePatch := None;
      if patch {
        var annotations: TagPatch := map[IdledAt := None];
        if ingressCodes.None? || ingressCodes.value != ingressValue {
          annotations := annotations[HttpErrors := ingressCodes];
        }
        if traefikMiddlewares.None? || traefikMiddlewares.value != traefikValue {
          annotations := annotations[Middlewares := traefikMiddlewares];
        }
        assert annotations == map[IdledAt := None] + StripMember(ingress, HttpErrors, "503")
                              + StripMember(ingress, Middlewares, Middleware(name));
        mergePatch := Some(Patch(map[Idled := Some("false")], annotations, None));
      }
    }

    /** A failed listing counts as not force-scaled. */
    method CheckForceScaled(name: string, env: Env) returns (scaled: bool)
      requires name in cluster.spaces && WellFormed(cluster.spaces[name], env)
      ensures scaled <==> env.listsDeployments && ForceScaledSeen(cluster.spaces[name])
    {
      if !env.listsDeployments {
        return false;
      }
      var deployments := Select(cluster.spaces[name], env.order, Scaled);
      if |deployments| > 0 {
        assert deployments[0] in deployments;
        return true;
      }
      scaled := false;
    }

    /** The handler's gate for an existing namespace and the ingress it found: `starts` says that the
        goroutine running Unidle is spawned. Here the handler runs without interruption. */
    method IngressHandler(name: string, ingress: Object, r: Access.Request, header: string, env: Env,
                          matches: Access.Regex, hmac: Verifier.Hmac) returns (starts: bool)
      requires name in cluster.spaces && WellFormed(cluster.spaces[name], env)
      modifies `locks
      ensures var namespace := cluster.spaces[name][Ns].annotations;
              starts <==>
                && Access.MayUnidle(lists, namespace, ingress.annotations, r, matches)
                && Verifier.VerifyRequest(verifiedUnidling, hmac, secret, name, namespace, ingress.annotations,
                                          header).1
                && MayStart(cluster.spaces[name], env, name in old(locks))
      ensures locks == if starts then old(locks) + {name} else old(locks)
    {
      starts := false;
      var namespace := cluster.spaces[name][Ns].annotations;
      var (signedNamespace, verified) :=
        Verifier.VerifyRequest(verifiedUnidling, hmac, secret, name, namespace, ingress.annotations, header);
      var allowUnidle := Access.CheckAccess(lists, namespace, ingress.annotations, r, matches);
      if allowUnidle {
        var forceScaled := CheckForceScaled(name, env);
        if !forceScaled && verified {
          if name !in locks {
            locks := locks + {name};
            starts := true;
          }
        }
      }
    }
  }
}
