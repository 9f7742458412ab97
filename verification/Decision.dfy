/** The idle decision and the service pass, stated on what a run is given: labels, annotations, phases,
    ages and samples. */
module Decision {
  import opened Decimal
  import opened Clusters
  import opened Patches
  import opened Idlers
  import opened IdlerFacts

  // ---------------------------------------------------------------- loops that stop at the first failure

  /** Among the picked keys there is a hit, and it and all picked keys before it are good. */
  ghost predicate UpTo(keys: seq<Key>, picked: Key -> bool, good: Key -> bool, hit: Key -> bool) {
    exists i :: 0 <= i < |keys| && picked(keys[i]) && hit(keys[i])
                && forall j :: 0 <= j <= i && picked(keys[j]) ==> good(keys[j])
  }

  lemma UpToHead(keys: seq<Key>, picked: Key -> bool, good: Key -> bool, hit: Key -> bool)
    requires keys != []
    ensures UpTo(keys, picked, good, hit) <==>
              if picked(keys[0]) then good(keys[0]) && (hit(keys[0]) || UpTo(keys[1..], picked, good, hit))
              else UpTo(keys[1..], picked, good, hit)
  {
    var rest := keys[1..];
    assert forall i :: 0 <= i < |rest| ==> rest[i] == keys[i + 1];
    if UpTo(keys, picked, good, hit) {
      var i :| 0 <= i < |keys| && picked(keys[i]) && hit(keys[i])
               && forall j :: 0 <= j <= i && picked(keys[j]) ==> good(keys[j]);
      if i > 0 {
        assert picked(rest[i - 1]) && hit(rest[i - 1]);
        assert UpTo(rest, picked, good, hit);
      }
    }
    if UpTo(rest, picked, good, hit) && (picked(keys[0]) ==> good(keys[0])) {
      var i :| 0 <= i < |rest| && picked(rest[i]) && hit(rest[i])
               && forall j :: 0 <= j <= i && picked(rest[j]) ==> good(rest[j]);
      forall j | 0 <= j <= i + 1 && picked(keys[j])
        ensures good(keys[j])
      {
        if j > 0 { assert keys[j] == rest[j - 1]; }
      }
      assert picked(keys[i + 1]) && hit(keys[i + 1]);
    }
  }

  /** A loop over a listing is a loop over the listing order that passes over what is not selected. */
  lemma {:induction false} UpToSelect(space: Space, order: seq<Key>, f: Filter, all: Key -> bool, picked: Key -> bool,
                                      good: Key -> bool, hit: Key -> bool)
    requires forall k :: all(k)
    requires forall k :: picked(k) <==> k in space && f.Selects(k, space[k])
    ensures UpTo(Select(space, order, f), all, good, hit) <==> UpTo(order, picked, good, hit)
  {
    if order != [] {
      UpToSelect(space, order[1..], f, all, picked, good, hit);
      UpToHead(order, picked, good, hit);
      if picked(order[0]) {
        var keys := Select(space, order, f);
        UpToHead(keys, all, good, hit);
        assert keys[1..] == Select(space, order[1..], f);
      }
    }
  }

  // ---------------------------------------------------------------- the parts, on raw inputs

  /** An annotation of the namespace that parses as a duration replaces the configured one. */
  ghost predicate IntervalIs(cfg: Config, meta: Object, t: Tag, configured: int, interval: int) {
    interval == if t in meta.annotations && meta.annotations[t] in cfg.durations
                then cfg.durations[meta.annotations[t]] else configured
  }

  /** The check for builds is skipped or fails, or no build pod is running or pending. */
  ghost predicate NoBuild(cfg: Config, env: Env) {
    || cfg.skipBuildCheck
    || env.builds.None?
    || forall i :: 0 <= i < |env.builds.value| ==>
         env.builds.value[i] != "Running" && env.builds.value[i] != "Pending"
  }

  ghost predicate IsPicked(cfg: Config, space: Space, k: Key) {
    k in space && k.Dep? && MatchesAll(cfg.deployments, space[k].labels)
  }

  /** Some selected deployment has a pod strictly older than `p`, and the pods of it and of every selected
      deployment listed before it could be listed. */
  ghost predicate OldEnough(cfg: Config, space: Space, env: Env, p: int) {
    exists i :: 0 <= i < |env.order| && IsPicked(cfg, space, env.order[i])
                && (forall j :: 0 <= j <= i && IsPicked(cfg, space, env.order[j]) ==> env.order[j] in env.pods)
                && exists a :: 0 <= a < |env.pods[env.order[i]]| && env.pods[env.order[i]][a].Some?
                               && env.pods[env.order[i]][a].value > p
  }

  /** Both queries over `q` answer, and their samples add up to a multiple of 2^64. */
  ghost predicate NoHits(env: Env, q: int) {
    q in env.nginxHits && q in env.traefikHits
    && (Sum(env.nginxHits[q]) + Sum(env.traefikHits[q])) % TWO_TO_64 == 0
  }

  /** Both queries over `q` answer with zeroes only. */
  ghost predicate AllZeroes(env: Env, q: int) {
    && q in env.nginxHits && q in env.traefikHits
    && (forall i :: 0 <= i < |env.nginxHits[q]| ==> Atoi(env.nginxHits[q][i]).Value() == 0)
    && (forall i :: 0 <= i < |env.traefikHits[q]| ==> Atoi(env.traefikHits[q][i]).Value() == 0)
  }

  /** Samples are counts, and they add up to less than 2^64. */
  ghost predicate Countable(env: Env, q: int) {
    q in env.nginxHits && q in env.traefikHits ==>
      && NonNegative(env.nginxHits[q]) && NonNegative(env.traefikHits[q])
      && Sum(env.nginxHits[q]) + Sum(env.traefikHits[q]) < TWO_TO_64
  }

  /** Patching ingresses is skipped, or they can be listed and no patch of a selected one, or of the
      namespace of one, fails. */
  ghost predicate IngressesGoThrough(cfg: Config, space: Space, env: Env) {
    || cfg.skipIngressPatch
    || (env.listsIngresses
        && forall k :: k in space && k.Ing? && MatchesAll(cfg.ingress, space[k].labels) ==>
             k !in env.faults && Ns !in env.faults)
  }

  // ---------------------------------------------------------------- the decision

  lemma OldPodIff(cfg: Config, space: Space, env: Env, p: int)
    ensures OldPodSeen(DeploymentsOf(cfg, space, env), env, p) <==> OldEnough(cfg, space, env, p)
  {
    var f := Deployments(cfg.deployments);
    var all: Key -> bool, good: Key -> bool := k => true, k => k in env.pods;
    var picked: Key -> bool := k => IsPicked(cfg, space, k);
    var hit: Key -> bool := k => k in env.pods && exists a :: 0 <= a < |env.pods[k]| && env.pods[k][a].Some?
                                                              && env.pods[k][a].value > p;
    UpToSelect(space, env.order, f, all, picked, good, hit);
    SeenIsUpTo(DeploymentsOf(cfg, space, env), env, p, all, good, hit);
    OldIsUpTo(cfg, space, env, p, picked, good, hit);
  }

  lemma SeenIsUpTo(keys: seq<Key>, env: Env, p: int, all: Key -> bool, good: Key -> bool, hit: Key -> bool)
    requires (forall k :: all(k)) && (forall k :: good(k) <==> k in env.pods)
    requires forall k :: hit(k) <==> k in env.pods && HasOld(env.pods[k], p)
    ensures OldPodSeen(keys, env, p) <==> UpTo(keys, all, good, hit)
  {
  }

  lemma OldIsUpTo(cfg: Config, space: Space, env: Env, p: int, picked: Key -> bool, good: Key -> bool, hit: Key -> bool)
    requires (forall k :: picked(k) <==> IsPicked(cfg, space, k)) && (forall k :: good(k) <==> k in env.pods)
    requires forall k :: hit(k) <==> k in env.pods && exists a :: 0 <= a < |env.pods[k]| && env.pods[k][a].Some?
                                                                  && env.pods[k][a].value > p
    ensures OldEnough(cfg, space, env, p) <==> UpTo(env.order, picked, good, hit)
  {
  }

  lemma QuietIff(cfg: Config, meta: Object, env: Env, q: int)
    requires IntervalIs(cfg, meta, PrometheusInterval, cfg.prometheusInterval, q)
    ensures Quiet(cfg, meta, env) <==> NoHits(env, q)
  {
    if q in env.nginxHits && q in env.traefikHits {
      var nginx, traefik := env.nginxHits[q], env.traefikHits[q];
      var k := HitsWrap(0, 0, 0, nginx);
      var l := HitsWrap(Hits(0, nginx), Sum(nginx), k, traefik);
      CongruentToZero(Hits(Hits(0, nginx), traefik), Sum(nginx) + Sum(traefik), l);
    }
  }

  lemma BuildSeenIff(cfg: Config, env: Env)
    ensures BuildSeen(cfg, env) <==> !NoBuild(cfg, env)
  {
    if env.builds.Some? {
      assert forall i :: 0 <= i < |env.builds.value| ==>
        (Busy(env.builds.value[i]) <==> env.builds.value[i] == "Running" || env.builds.value[i] == "Pending");
    }
  }

  /** The whole decision on raw inputs. The counter of hits is exact up to multiples of 2^64. */
  lemma DecidedIff(cfg: Config, meta: Object, space: Space, env: Env, fi: bool, fs: bool, p: int, q: int)
    requires IntervalIs(cfg, meta, PodInterval, cfg.podInterval, p)
    requires IntervalIs(cfg, meta, PrometheusInterval, cfg.prometheusInterval, q)
    ensures ShouldIdle(cfg, meta, space, env, fi, fs) <==>
              && NoBuild(cfg, env) && env.listsDeployments
              && (fi || fs || (OldEnough(cfg, space, env, p) && (cfg.skipHitCheck || NoHits(env, q))))
  {
    BuildSeenIff(cfg, env);
    OldPodIff(cfg, space, env, p);
    QuietIff(cfg, meta, env, q);
  }

  /** For counts that do not overflow, no hits means that every sample is zero. */
  lemma NoHitsIff(env: Env, q: int)
    requires Countable(env, q)
    ensures NoHits(env, q) <==> AllZeroes(env, q)
  {
    if q in env.nginxHits && q in env.traefikHits {
      SumOfNonNegative(env.nginxHits[q]);
      SumOfNonNegative(env.traefikHits[q]);
      SmallMultiple(Sum(env.nginxHits[q]) + Sum(env.traefikHits[q]));
    }
  }

  lemma SmallMultiple(n: int)
    requires 0 <= n < TWO_TO_64
    ensures n % TWO_TO_64 == 0 <==> n == 0
  {
  }

  // ---------------------------------------------------------------- patchIngress

  /** patchIngress reports no error exactly when its List answers and no patch it sends fails; it sends
      one to each selected ingress and, if there is one, to the namespace. */
  lemma AnnotatedOkIff(cfg: Config, name: string, space: Space, env: Env)
    requires WellFormed(space, env)
    ensures !cfg.dryRun ==> (Annotated(cfg, name, space, env).1 <==> IngressesGoThrough(cfg, space, env))
    ensures cfg.dryRun ==> (Annotated(cfg, name, space, env).1 <==> cfg.skipIngressPatch || env.listsIngresses)
  {
    var keys := IngressesOf(cfg, space, env);
    var n := FirstFault(keys, env.faults);
    if n < |keys| {
      assert keys[n] in keys;
    } else {
      assert forall k :: k in keys ==> k !in env.faults;
      if keys != [] {
        assert keys[0] in keys;
      }
    }
  }

  /** An ingress is annotated exactly when it is selected and neither its own patch nor that of a selected
      ingress listed before it fails; the rest stays as it was. */
  lemma AnnotatedIngressIff(cfg: Config, name: string, space: Space, env: Env, i: nat)
    requires WellFormed(space, env) && i < |env.order| && env.order[i].Ing?
    requires !cfg.skipIngressPatch && !cfg.dryRun && env.listsIngresses
    ensures var k := env.order[i];
            Annotated(cfg, name, space, env).0[k] ==
              if MatchesAll(cfg.ingress, space[k].labels)
                 && (forall j :: 0 <= j <= i && env.order[j].Ing? && MatchesAll(cfg.ingress, space[env.order[j]].labels)
                                 ==> env.order[j] !in env.faults)
              then Written(name, Annotate, space[k], space[k]) else space[k]
  {
    var k := env.order[i];
    assert k in env.order;
    var f := Ingresses(cfg.ingress);
    var all: Key -> bool, good: Key -> bool, hit: Key -> bool := x => true, x => x !in env.faults, x => x == k;
    var picked: Key -> bool := x => x in space && f.Selects(x, space[x]);
    UpToSelect(space, env.order, f, all, picked, good, hit);
    BeforeFirstFault(IngressesOf(cfg, space, env), env.faults, k, all, good, hit);
    assert forall j :: 0 <= j < |env.order| ==> env.order[j] in env.order;
    assert UpTo(env.order, picked, good, hit) <==>
             picked(k) && forall j :: 0 <= j <= i && picked(env.order[j]) ==> good(env.order[j]);
    AnnotatedBefore(cfg, name, space, env, k);
  }

  lemma BeforeFirstFault(keys: seq<Key>, faults: set<Key>, k: Key, all: Key -> bool, good: Key -> bool,
                         hit: Key -> bool)
    requires (forall x :: all(x)) && (forall x :: good(x) <==> x !in faults) && (forall x :: hit(x) <==> x == k)
    ensures k in keys[..FirstFault(keys, faults)] <==> UpTo(keys, all, good, hit)
  {
    var n := FirstFault(keys, faults);
    if k in keys[..n] {
      var h :| 0 <= h < n && keys[..n][h] == k;
      assert all(keys[h]) && hit(keys[h]);
    }
    if UpTo(keys, all, good, hit) {
      var h :| 0 <= h < |keys| && all(keys[h]) && hit(keys[h])
               && forall j :: 0 <= j <= h && all(keys[j]) ==> good(keys[j]);
      assert forall j :: 0 <= j <= h ==> all(keys[j]) && keys[j] !in faults;
      assert keys[..n][h] == k;
    }
  }

  lemma AnnotatedBefore(cfg: Config, name: string, space: Space, env: Env, k: Key)
    requires k in space && k.Ing? && !cfg.skipIngressPatch && !cfg.dryRun && env.listsIngresses
    ensures var keys := IngressesOf(cfg, space, env);
            Annotated(cfg, name, space, env).0[k] ==
              if k in keys[..FirstFault(keys, env.faults)] then Written(name, Annotate, space[k], space[k])
                  else space[k]
  {
    var keys := IngressesOf(cfg, space, env);
    assert keys[..|keys|] == keys;
  }

  /** The namespace is labelled only when all goes well and there is an ingress to come back through. */
  lemma AnnotatedNamespaceIff(cfg: Config, name: string, space: Space, env: Env)
    requires WellFormed(space, env) && !cfg.skipIngressPatch && !cfg.dryRun && env.listsIngresses
    ensures Annotated(cfg, name, space, env).0[Ns] ==
              if Ns !in env.faults
                 && (exists k :: k in space && k.Ing? && MatchesAll(cfg.ingress, space[k].labels))
                 && (forall k :: k in space && k.Ing? && MatchesAll(cfg.ingress, space[k].labels) ==> k !in env.faults)
              then Apply(MarkPatch("true"), space[Ns]) else space[Ns]
  {
    AnnotatedLabel(cfg, name, space, env);
    IngressesListed(cfg, space, env);
    FaultListed(cfg, space, env);
  }

  lemma IngressesListed(cfg: Config, space: Space, env: Env)
    requires WellFormed(space, env)
    ensures var keys := IngressesOf(cfg, space, env);
            keys != [] <==> exists k :: k in space && k.Ing? && MatchesAll(cfg.ingress, space[k].labels)
  {
    var keys := IngressesOf(cfg, space, env);
    assert keys != [] ==> keys[0] in keys;
  }

  lemma FaultListed(cfg: Config, space: Space, env: Env)
    requires WellFormed(space, env)
    ensures var keys := IngressesOf(cfg, space, env);
            FirstFault(keys, env.faults) == |keys| <==>
              forall k :: k in space && k.Ing? && MatchesAll(cfg.ingress, space[k].labels) ==> k !in env.faults
  {
    var keys := IngressesOf(cfg, space, env);
    var n := FirstFault(keys, env.faults);
    assert n < |keys| ==> keys[n] in keys;
  }

  lemma AnnotatedLabel(cfg: Config, name: string, space: Space, env: Env)
    requires Ns in space && !cfg.skipIngressPatch && !cfg.dryRun && env.listsIngresses
    ensures var keys := IngressesOf(cfg, space, env);
            Annotated(cfg, name, space, env).0[Ns] ==
              if FirstFault(keys, env.faults) < |keys| || keys == [] || Ns in env.faults then space[Ns]
              else Apply(MarkPatch("true"), space[Ns])
  {
    var keys := IngressesOf(cfg, space, env);
    var annotated := Patched(name, space, space, keys[..FirstFault(keys, env.faults)], Annotate, {});
    IngressesOnly(cfg, name, space, space, env, FirstFault(keys, env.faults), Ns);
    Labelled(name, annotated, env.faults);
  }

  lemma Labelled(name: string, space: Space, faults: set<Key>)
    requires Ns in space
    ensures Patched(name, space, space, [Ns], Mark("true"), faults)[Ns]
         == if Ns in faults then space[Ns] else Apply(MarkPatch("true"), space[Ns])
  {
  }

  // ---------------------------------------------------------------- one run

  /** A deployment is idled by a run exactly when the selector picks it, its own patch does not fail, no
      build is seen, patchIngress goes through and either a force flag is set or the environment is old
      enough and has no hits; otherwise it stays as it was. */
  lemma IdledIff(cfg: Config, name: string, meta: Object, space: Space, env: Env, fi: bool, fs: bool, p: int, q: int,
                 d: Key)
    requires WellFormed(space, env) && d in space && d.Dep? && !cfg.dryRun && Countable(env, q)
    requires IntervalIs(cfg, meta, PodInterval, cfg.podInterval, p)
    requires IntervalIs(cfg, meta, PrometheusInterval, cfg.prometheusInterval, q)
    ensures IdleRun(cfg, name, meta, space, env, fi, fs)[d] ==
              if && IsPicked(cfg, space, d) && d !in env.faults
                 && NoBuild(cfg, env) && env.listsDeployments && IngressesGoThrough(cfg, space, env)
                 && (fi || fs || (OldEnough(cfg, space, env, p) && (cfg.skipHitCheck || AllZeroes(env, q))))
              then Written(name, Idle(env.now, fi, fs), space[d], space[d]) else space[d]
  {
    IdleRunDeployment(cfg, name, meta, space, env, fi, fs, d);
    DecidedIff(cfg, meta, space, env, fi, fs, p, q);
    AnnotatedOkIff(cfg, name, space, env);
    NoHitsIff(env, q);
  }

  // ---------------------------------------------------------------- the service pass

  /** A pass leaves a namespace alone unless the selector picks it, it has a type label and both auto-idle
      labels are "1"; then it is the unforced run on that namespace alone. */
  lemma PassIff(cfg: Config, spaces: map<string, Space>, envs: map<string, Env>, n: string)
    requires AllWellFormed(spaces, envs) && n in spaces
    ensures var labels := spaces[n][Ns].labels;
            ServicePass(cfg, spaces, envs)[n] ==
              if && MatchesAll(cfg.namespaces, labels) && cfg.environmentType in labels
                 && cfg.projectIdling in labels && labels[cfg.projectIdling] == "1"
                 && cfg.environmentIdling in labels && labels[cfg.environmentIdling] == "1"
              then IdleRun(cfg, n, spaces[n][Ns], spaces[n], envs[n], false, false) else spaces[n]
  {
  }

  /** A pass leaves alone every namespace that has had hits, or whose hits cannot be counted. */
  lemma PassSparesBusy(cfg: Config, spaces: map<string, Space>, envs: map<string, Env>, n: string, q: int)
    requires AllWellFormed(spaces, envs) && n in spaces && !cfg.skipHitCheck
    requires IntervalIs(cfg, spaces[n][Ns], PrometheusInterval, cfg.prometheusInterval, q)
    requires Countable(envs[n], q) && !AllZeroes(envs[n], q)
    ensures ServicePass(cfg, spaces, envs)[n] == spaces[n]
  {
    NoHitsIff(envs[n], q);
    PassIff(cfg, spaces, envs, n);
    BusyStays(cfg, n, spaces[n][Ns], spaces[n], envs[n], q);
  }

  lemma BusyStays(cfg: Config, name: string, meta: Object, space: Space, env: Env, q: int)
    requires IntervalIs(cfg, meta, PrometheusInterval, cfg.prometheusInterval, q)
    requires !cfg.skipHitCheck && !NoHits(env, q)
    ensures IdleRun(cfg, name, meta, space, env, false, false) == space
  {
    QuietIff(cfg, meta, env, q);
  }
}
