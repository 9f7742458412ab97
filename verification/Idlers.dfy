/** The service idler: internal/handlers/idler/service.go and service-kubernetes.go. */
module Idlers {
  import opened Options
  import opened CommaList
  import opened Hyphens
  import opened Decimal
  import opened Clusters
  import opened Patches

  /** The fields of the Go type Idler and of its selectors file that steer it. Intervals are in
      nanoseconds, as Go's time.Duration; `durations` stands for time.ParseDuration and holds the
      texts that parse. */
  datatype Config = Config(
    podInterval: int, prometheusInterval: int,
    skipBuildCheck: bool, skipHitCheck: bool, skipIngressPatch: bool, dryRun: bool,
    namespaces: seq<Requirement>, deployments: seq<Requirement>, ingress: seq<Requirement>,
    projectIdling: Tag, environmentIdling: Tag, environmentType: Tag,
    durations: map<string, int>)

  /** Everything one run learns from outside: what its List calls and queries return (None, or
      a missing entry, for an error), the listing order, the clock, and which objects' patches fail. */
  datatype Env = Env(
    order: seq<Key>,
    builds: Option<seq<string>>,               // pod phases
    listsDeployments: bool,
    pods: map<Key, seq<Option<int>>>,          // age of each pod that has a start time
    nginxHits: map<int, seq<string>>,          // samples over the given interval
    traefikHits: map<int, seq<string>>,
    listsIngresses: bool,
    now: string,
    faults: set<Key>,
    clearFault: bool)                          // the patch that removes a trigger label

  // ---------------------------------------------------------------- the decision, declaratively

  /** An interval annotation on the namespace overrides the configured value when it parses. */
  function Interval(cfg: Config, meta: Object, t: Tag, default: int): int {
    match Get(meta.annotations, t)
    case None => default
    case Some(text) => Get(cfg.durations, text).GetOr(default)
  }

  predicate Busy(phase: string) {
    phase == "Running" || phase == "Pending"
  }

  ghost predicate BuildSeen(cfg: Config, env: Env) {
    !cfg.skipBuildCheck && env.builds.Some?
    && exists i :: 0 <= i < |env.builds.value| && Busy(env.builds.value[i])
  }

  ghost predicate HasOld(pods: seq<Option<int>>, interval: int) {
    exists j :: 0 <= j < |pods| && pods[j].Some? && pods[j].value > interval
  }

  /** Some deployment before the first failed pod listing has a pod strictly older than `interval`. */
  ghost predicate OldPodSeen(keys: seq<Key>, env: Env, interval: int) {
    exists i :: 0 <= i < |keys| && (forall h :: 0 <= h <= i ==> keys[h] in env.pods)
                && HasOld(env.pods[keys[i]], interval)
  }

  /** The hit counter after adding `samples` to `start`, in 64-bit arithmetic. */
  function Hits(start: Int64, samples: seq<string>): Int64 {
    if samples == [] then start
    else Add64(Hits(start, samples[..|samples| - 1]), Atoi(samples[|samples| - 1]).Value())
  }

  lemma HitsStep(start: Int64, samples: seq<string>, i: nat)
    requires i < |samples|
    ensures Hits(start, samples[..i + 1]) == Add64(Hits(start, samples[..i]), Atoi(samples[i]).Value())
  {
    assert samples[..i + 1][..i] == samples[..i];
  }

  /** Both queries answer and the hit counter ends at 0. */
  predicate Quiet(cfg: Config, meta: Object, env: Env) {
    var interval := Interval(cfg, meta, PrometheusInterval, cfg.prometheusInterval);
    && interval in env.nginxHits
    && interval in env.traefikHits
    && Hits(Hits(0, env.nginxHits[interval]), env.traefikHits[interval]) == 0
  }

  function DeploymentsOf(cfg: Config, space: Space, env: Env): seq<Key> {
    Select(space, env.order, Deployments(cfg.deployments))
  }

  function IngressesOf(cfg: Config, space: Space, env: Env): seq<Key> {
    Select(space, env.order, Ingresses(cfg.ingress))
  }

  ghost predicate ShouldIdle(cfg: Config, meta: Object, space: Space, env: Env, forceIdle: bool, forceScale: bool) {
    && !BuildSeen(cfg, env)
    && env.listsDeployments
    && (forceIdle || forceScale
        || (OldPodSeen(DeploymentsOf(cfg, space, env), env, Interval(cfg, meta, PodInterval, cfg.podInterval))
            && (cfg.skipHitCheck || Quiet(cfg, meta, env))))
  }

  // ---------------------------------------------------------------- the effect, declaratively

  /** How many keys come before the first one in `faults`. */
  function FirstFault(keys: seq<Key>, faults: set<Key>): (n: nat)
    ensures n <= |keys|
    ensures forall i :: 0 <= i < n ==> keys[i] !in faults
    ensures n < |keys| ==> keys[n] in faults
  {
    if keys == [] || keys[0] in faults then 0 else 1 + FirstFault(keys[1..], faults)
  }

  /** patchIngress, when its List shows the ingresses as in `ings`, which may be out of date: the namespace
      afterwards, and whether it returned without an error. Ingresses are annotated up to the first
      failure; the namespace is labelled when all of at least one were. */
  function AnnotatedFrom(cfg: Config, name: string, space: Space, ings: Space, env: Env): (r: (Space, bool))
    ensures r.0.Keys == space.Keys
  {
    if cfg.skipIngressPatch then (space, true)
    else if !env.listsIngresses then (space, false)
    else if cfg.dryRun then (space, true)
    else
      var keys := IngressesOf(cfg, ings, env);
      var n := FirstFault(keys, env.faults);
      var annotated := Patched(name, space, ings, keys[..n], Annotate, {});
      if n < |keys| then (annotated, false)
      else if keys == [] then (annotated, true)
      else (Patched(name, annotated, annotated, [Ns], Mark("true"), env.faults), Ns !in env.faults)
  }

  /** The same from an up-to-date List. */
  function Annotated(cfg: Config, name: string, space: Space, env: Env): (r: (Space, bool))
    ensures r.0.Keys == space.Keys
  {
    AnnotatedFrom(cfg, name, space, space, env)
  }

  /** One run of KubernetesServiceIdler on one namespace, when its List of deployments shows `view` and
      that of ingresses shows `ings`. */
  ghost function IdleRunFrom(cfg: Config, name: string, meta: Object, space: Space, view: Space, ings: Space,
                             env: Env, forceIdle: bool, forceScale: bool): (r: Space)
    ensures r.Keys == space.Keys
  {
    if !ShouldIdle(cfg, meta, view, env, forceIdle, forceScale) then space
    else
      var (annotated, ok) := AnnotatedFrom(cfg, name, space, ings, env);
      if !ok || cfg.dryRun then annotated
      else Patched(name, annotated, view, DeploymentsOf(cfg, view, env),
                   Idle(env.now, forceIdle, forceScale), env.faults)
  }

  /** The same from up-to-date Lists. */
  ghost function IdleRun(cfg: Config, name: string, meta: Object, space: Space, env: Env,
                         forceIdle: bool, forceScale: bool): (r: Space)
    ensures r.Keys == space.Keys
  {
    IdleRunFrom(cfg, name, meta, space, space, space, env, forceIdle, forceScale)
  }

  /** ServiceIdler handles a namespace when the selector picks it and both auto-idle labels are "1". */
  predicate OptedIn(cfg: Config, meta: Object) {
    && MatchesAll(cfg.namespaces, meta.labels)
    && cfg.environmentType in meta.labels
    && Has(meta.labels, cfg.environmentIdling, "1")
    && Has(meta.labels, cfg.projectIdling, "1")
  }

  /** A namespace with a listing order of its objects. */
  ghost predicate WellFormed(space: Space, env: Env) {
    Ns in space && Enumerates(env.order, space)
  }

  ghost predicate AllWellFormed(spaces: map<string, Space>, envs: map<string, Env>) {
    forall n :: n in spaces ==> n in envs && WellFormed(spaces[n], envs[n])
  }

  /** What a pass of the service idler does to one namespace. */
  ghost function ServiceRun(cfg: Config, name: string, space: Space, env: Env): Space
    requires Ns in space
  {
    if OptedIn(cfg, space[Ns]) then IdleRun(cfg, name, space[Ns], space, env, false, false) else space
  }

  /** The product over namespaces: it mentions no order, and no namespace reads another. */
  ghost function ServicePass(cfg: Config, spaces: map<string, Space>, envs: map<string, Env>): map<string, Space>
    requires AllWellFormed(spaces, envs)
  {
    map n | n in spaces :: ServiceRun(cfg, n, spaces[n], envs[n])
  }


  // ---------------------------------------------------------------- the idler itself

  class Idler {
    const cluster: Cluster
    const cfg: Config

    constructor (cluster: Cluster, cfg: Config)
      ensures this.cluster == cluster && this.cfg == cfg
    {
      this.cluster := cluster;
      this.cfg := cfg;
    }

    method IdleDeployments(name: string, view: Space, deployments: seq<Key>, env: Env, forceIdle: bool,
                           forceScale: bool)
      requires name in cluster.spaces && Loopable(cluster.spaces[name], view, deployments)
      modifies cluster
      ensures cluster.spaces == old(cluster.spaces)[name :=
                if cfg.dryRun then old(cluster.spaces)[name]
                else Patched(name, old(cluster.spaces)[name], view, deployments,
                             Idle(env.now, forceIdle, forceScale), env.faults)]
    {
      ghost var before := cluster.spaces;
      ghost var op := Idle(env.now, forceIdle, forceScale);
      Replaced(before, name, before[name], before[name]);
      LoopEnds(before, name, view, deployments, op, env.faults);
      for i := 0 to |deployments|
        invariant cluster.spaces ==
                    if cfg.dryRun then before
                    else before[name := Patched(name, before[name], view, deployments[..i], op, env.faults)]
      {
        LoopStep(before, name, view, deployments, i, op, env.faults);
        if !cfg.dryRun {
          var mergePatch := ScaleDownPatch(view[deployments[i]], env.now, forceIdle, forceScale);
          var _ := cluster.PatchObject(name, deployments[i], mergePatch, deployments[i] in env.faults);
        }
      }
    }

    method ScaleDownPatch(deployment: Object, now: string, forceIdle: bool, forceScale: bool)
        returns (mergePatch: Patch)
      ensures mergePatch == IdlePatch(deployment, now, forceIdle, forceScale)
    {
      var idleReplicas := 1;
      if deployment.replicas > 0 {
        idleReplicas := deployment.replicas;
      }
      var labels: TagPatch := map[Watch := Some("true"), Idled := Some("true")];
      if forceIdle {
        labels := labels[ForceIdled := Some("true")];
      }
      if forceScale {
        labels := labels[ForceScaled := Some("true")];
      }
      mergePatch := Patch(labels,
                          map[IdledAt := Some(now), UnidleReplicas := Some(FormatInt(idleReplicas))],
                          Some(0));
    }

    method PatchIngress(name: string, env: Env) returns (ok: bool)
      requires name in cluster.spaces && WellFormed(cluster.spaces[name], env)
      modifies cluster
      ensures cluster.spaces == old(cluster.spaces)[name := Annotated(cfg, name, old(cluster.spaces)[name], env).0]
      ensures ok == Annotated(cfg, name, old(cluster.spaces)[name], env).1
    {
      ghost var before := cluster.spaces;
      Replaced(before, name, before[name], before[name]);
      if cfg.skipIngressPatch {
        return true;
      }
      if !env.listsIngresses {
        return false;
      }
      var view := cluster.spaces[name];
      var ingresses := Select(view, env.order, Ingresses(cfg.ingress));
      SelectLoopable(view, env.order, Ingresses(cfg.ingress));
      var done, patched := AnnotateEach(name, view, ingresses, env.faults);
      if !done {
        return false;
      }
      assert ingresses[..|ingresses|] == ingresses;
      if !patched {
        return true;
      }
      ghost var annotated := cluster.spaces[name];
      ok := MarkNamespace(name, env.faults);
      Replaced(before, name, annotated, cluster.spaces[name]);
    }

    /** The namespace patch at the end of patchIngress. */
    method MarkNamespace(name: string, faults: set<Key>) returns (ok: bool)
      requires name in cluster.spaces && Ns in cluster.spaces[name]
      modifies cluster
      ensures var space := old(cluster.spaces)[name];
              cluster.spaces == old(cluster.spaces)[name := Patched(name, space, space, [Ns], Mark("true"), faults)]
      ensures ok == (Ns !in faults)
    {
      MarkStep(cluster.spaces, name, Mark("true"), faults);
      ok := cluster.PatchObject(name, Ns, MarkPatch("true"), Ns in faults);
    }

    /** The loop of patchIngress. */
    method AnnotateEach(name: string, view: Space, ingresses: seq<Key>, faults: set<Key>)
        returns (ok: bool, patched: bool)
      requires name in cluster.spaces && Loopable(cluster.spaces[name], view, ingresses)
      modifies cluster
      ensures var space := old(cluster.spaces)[name];
              var n := FirstFault(ingresses, faults);
              && ok == (cfg.dryRun || n == |ingresses|)
              && (ok ==> patched == (!cfg.dryRun && n > 0))
              && cluster.spaces == old(cluster.spaces)[name :=
                   if cfg.dryRun then space else Patched(name, space, view, ingresses[..n], Annotate, {})]
    {
      ghost var before := cluster.spaces;
      patched := false;
      Replaced(before, name, before[name], before[name]);
      LoopEnds(before, name, view, ingresses, Annotate, {});
      for i := 0 to |ingresses|
        invariant patched == (!cfg.dryRun && i > 0)
        invariant !cfg.dryRun ==> i <= FirstFault(ingresses, faults)
        invariant cluster.spaces ==
                    if cfg.dryRun then before
                    else before[name := Patched(name, before[name], view, ingresses[..i], Annotate, {})]
      {
        if !cfg.dryRun {
          AnnotateRound(before, name, view, ingresses, i, faults);
          var mergePatch := ErrorCodePatch(name, view[ingresses[i]]);
          ok := cluster.PatchObject(name, ingresses[i], mergePatch, ingresses[i] in faults);
          if !ok {
            return;
          }
          patched := true;
        }
      }
      ok := true;
    }

    method ErrorCodePatch(name: string, ingress: Object) returns (mergePatch: Patch)
      ensures mergePatch == AnnotatePatch(name, ingress)
    {
      var ingressCodes := AddStatusCode(Annotation(ingress, HttpErrors), "503");
      var traefikMiddlewares := AddStatusCode(Annotation(ingress, Middlewares), Middleware(name));
      mergePatch := Patch(map[Idled := Some("true")],
                          map[HttpErrors := Some(ingressCodes), Middlewares := Some(traefikMiddlewares)],
                          None);
    }

    /** Whether a build pod is running or pending; a failed listing counts as no build. */
    method CheckBuilds(env: Env) returns (runningBuild: bool)
      ensures runningBuild <==> BuildSeen(cfg, env)
    {
      runningBuild := false;
      if !cfg.skipBuildCheck && env.builds.Some? {
        var builds := env.builds.value;
        for i := 0 to |builds|
          invariant forall h :: 0 <= h < i ==> !Busy(builds[h])
        {
          if Busy(builds[i]) {
            runningBuild := true;
            break;
          }
        }
      }
    }

    /** The pod loop. The replica test in front of it compares two pointers, so it never skips. */
    method CheckPods(deployments: seq<Key>, env: Env, interval: int) returns (idle: bool)
      ensures idle <==> OldPodSeen(deployments, env, interval)
    {
      idle := false;
      for i := 0 to |deployments|
        invariant forall h :: 0 <= h < i ==> deployments[h] in env.pods
        invariant idle <==> exists h :: 0 <= h < i && HasOld(env.pods[deployments[h]], interval)
      {
        var listed := Get(env.pods, deployments[i]);
        if listed.None? {
          break;
        }
        var pods := listed.value;
        ghost var earlier := idle;
        for j := 0 to |pods|
          invariant idle <==> earlier || HasOld(pods[..j], interval)
        {
          assert pods[..j + 1][j] == pods[j];
          assert forall h :: 0 <= h < j ==> pods[..j + 1][h] == pods[..j][h];
          if pods[j].Some? {
            if pods[j].value > interval {
              idle := true;
            }
          }
        }
        assert pods[..|pods|] == pods;
      }
    }

    /** The hit counter over both queries; None when one of them fails. */
    method CountHits(interval: int, env: Env) returns (hits: Option<Int64>)
      ensures hits == match (Get(env.nginxHits, interval), Get(env.traefikHits, interval))
                      case (Some(n), Some(t)) => Some(Hits(Hits(0, n), t))
                      case _ => None
    {
      var result := Get(env.nginxHits, interval);
      if result.None? {
        return None;
      }
      var result2 := Get(env.traefikHits, interval);
      if result2.None? {
        return None;
      }
      var numHits: Int64 := 0;
      var resultVal := result.value;
      for i := 0 to |resultVal|
        invariant numHits == Hits(0, resultVal[..i])
      {
        HitsStep(0, resultVal, i);
        numHits := Add64(numHits, Atoi(resultVal[i]).Value());
      }
      ghost var first := numHits;
      assert resultVal[..|resultVal|] == resultVal;
      resultVal := result2.value;
      for i := 0 to |resultVal|
        invariant numHits == Hits(first, resultVal[..i])
      {
        HitsStep(first, resultVal, i);
        numHits := Add64(numHits, Atoi(resultVal[i]).Value());
      }
      assert resultVal[..|resultVal|] == resultVal;
      hits := Some(numHits);
    }

    /** Everything before the first write: the build check, the pod check and the hit check. */
    method Decide(meta: Object, view: Space, env: Env, forceIdle: bool, forceScale: bool) returns (idle: bool)
      ensures idle <==> ShouldIdle(cfg, meta, view, env, forceIdle, forceScale)
    {
      var podInterval := Interval(cfg, meta, PodInterval, cfg.podInterval);
      var prometheusInterval := Interval(cfg, meta, PrometheusInterval, cfg.prometheusInterval);
      var runningBuild := CheckBuilds(env);
      if runningBuild || !env.listsDeployments {
        return false;
      }
      idle := CheckPods(Select(view, env.order, Deployments(cfg.deployments)), env, podInterval);
      if !idle && !forceIdle && !forceScale {
        return false;
      }
      if !cfg.skipHitCheck && !forceIdle && !forceScale {
        var hits := CountHits(prometheusInterval, env);
        if hits != Some(0) {
          return false;
        }
      }
      idle := true;
    }

    method KubernetesServiceIdler(name: string, meta: Object, env: Env, forceIdle: bool, forceScale: bool)
      requires name in cluster.spaces && WellFormed(cluster.spaces[name], env)
      modifies cluster
      ensures cluster.spaces == old(cluster.spaces)[name :=
                IdleRun(cfg, name, meta, old(cluster.spaces)[name], env, forceIdle, forceScale)]
    {
      ghost var before := cluster.spaces;
      Replaced(before, name, before[name], before[name]);
      var view := cluster.spaces[name];
      var idle := Decide(meta, view, env, forceIdle, forceScale);
      if idle {
        var deployments := Select(view, env.order, Deployments(cfg.deployments));
        var ok := PatchIngress(name, env);
        if ok {
          SelectLoopable(view, env.order, Deployments(cfg.deployments));
          Replaced(before, name, cluster.spaces[name],
                   Patched(name, cluster.spaces[name], view, deployments, Idle(env.now, forceIdle, forceScale),
                           env.faults));
          Replaced(before, name, cluster.spaces[name], cluster.spaces[name]);
          IdleDeployments(name, view, deployments, env, forceIdle, forceScale);
        }
      }
    }

    /** One pass over every namespace. The result is a product: each opted-in namespace is changed as
        if it were alone, whatever the order, and no other namespace is touched. */
    method ServiceIdler(lists: bool, order: seq<string>, envs: map<string, Env>)
      requires NoDuplicates(order) && forall n :: n in order <==> n in cluster.spaces
      requires AllWellFormed(cluster.spaces, envs)
      modifies cluster
      ensures cluster.spaces == if lists then ServicePass(cfg, old(cluster.spaces), envs) else old(cluster.spaces)
    {
      if !lists {
        return;
      }
      var namespaces := cluster.spaces;
      ghost var target := ServicePass(cfg, namespaces, envs);
      BlendEnds(namespaces, target, order);
      for i := 0 to |order|
        invariant cluster.spaces == Blend(namespaces, target, order[..i])
      {
        var name := order[i];
        BlendStep(namespaces, target, order, i);
        ServiceOne(name, namespaces[name][Ns], envs[name]);
      }
    }

    /** The gate in front of each namespace. */
    method ServiceOne(name: string, meta: Object, env: Env)
      requires name in cluster.spaces && WellFormed(cluster.spaces[name], env) && meta == cluster.spaces[name][Ns]
      modifies cluster
      ensures cluster.spaces == old(cluster.spaces)[name := ServiceRun(cfg, name, old(cluster.spaces)[name], env)]
    {
      Replaced(cluster.spaces, name, cluster.spaces[name], cluster.spaces[name]);
      if MatchesAll(cfg.namespaces, meta.labels) {
        if cfg.projectIdling in meta.labels && cfg.environmentIdling in meta.labels
            && cfg.environmentType in meta.labels {
          if meta.labels[cfg.environmentIdling] == "1" && meta.labels[cfg.projectIdling] == "1" {
            KubernetesServiceIdler(name, meta, env, false, false);
          }
        }
      }
    }
  }

  /** One round of patchIngress: the loop goes on exactly when the patch went through. */
  lemma AnnotateRound(before: map<string, Space>, name: string, view: Space, keys: seq<Key>, i: nat, faults: set<Key>)
    requires name in before && i < |keys| && Loopable(before[name], view, keys)
    requires i <= FirstFault(keys, faults)
    ensures keys[i] in view
    ensures var now := before[name := Patched(name, before[name], view, keys[..i], Annotate, {})];
            var p := AnnotatePatch(name, view[keys[i]]);
            && Lands(now, name, keys[i], p, keys[i] in faults) == (keys[i] !in faults)
            && Sent(now, name, keys[i], p, keys[i] in faults) ==
                 (if keys[i] in faults then now
                  else before[name := Patched(name, before[name], view, keys[..i + 1], Annotate, {})])
    ensures if keys[i] in faults then i == FirstFault(keys, faults) else i < FirstFault(keys, faults)
  {
    LoopStep(before, name, view, keys, i, Annotate, {});
  }

  /** `target` on the names already handled, the original elsewhere. */
  ghost function Blend(spaces: map<string, Space>, target: map<string, Space>, done: seq<string>): map<string, Space>
    requires spaces.Keys <= target.Keys
  {
    map n | n in spaces :: if n in done then target[n] else spaces[n]
  }

  lemma BlendEnds(spaces: map<string, Space>, target: map<string, Space>, order: seq<string>)
    requires spaces.Keys == target.Keys && forall n :: n in spaces ==> n in order
    ensures Blend(spaces, target, order[..0]) == spaces
    ensures Blend(spaces, target, order[..|order|]) == target
  {
    assert order[..|order|] == order;
  }

  lemma BlendStep(spaces: map<string, Space>, target: map<string, Space>, order: seq<string>, i: nat)
    requires spaces.Keys == target.Keys && i < |order| && NoDuplicates(order) && order[i] in spaces
    ensures Blend(spaces, target, order[..i])[order[i]] == spaces[order[i]]
    ensures Blend(spaces, target, order[..i + 1]) == Blend(spaces, target, order[..i])[order[i] := target[order[i]]]
  {
    PrefixStep(order, i);
  }
}
