/** What a run of the service idler means, read off its specification. */
module IdlerFacts {
  import opened Options
  import opened Decimal
  import opened Clusters
  import opened Patches
  import opened Idlers

  /** A dry run changes nothing, whatever is listed and whatever fails. */
  lemma DryRunWritesNothing(cfg: Config, name: string, meta: Object, space: Space, env: Env, fi: bool, fs: bool)
    requires cfg.dryRun
    ensures IdleRun(cfg, name, meta, space, env, fi, fs) == space
  {
  }

  /** The run goes as far as the deployments. */
  ghost predicate IdlesFrom(cfg: Config, name: string, meta: Object, space: Space, view: Space, ings: Space, env: Env,
                            fi: bool, fs: bool) {
    && ShouldIdle(cfg, meta, view, env, fi, fs)
    && !cfg.dryRun
    && AnnotatedFrom(cfg, name, space, ings, env).1
  }

  ghost predicate Idles(cfg: Config, name: string, meta: Object, space: Space, env: Env, fi: bool, fs: bool) {
    IdlesFrom(cfg, name, meta, space, space, space, env, fi, fs)
  }

  // ---------------------------------------------------------------- with Lists that may be out of date

  /** When the run does not get that far, no deployment changes. When it does, exactly the listed ones
      whose patch does not fail are idled, each with the count it was listed with. */
  lemma IdleRunFromDeployment(cfg: Config, name: string, meta: Object, space: Space, view: Space, ings: Space, env: Env,
                              fi: bool, fs: bool, k: Key)
    requires WellFormed(space, env) && view.Keys == space.Keys && k in space && k.Dep?
    ensures IdleRunFrom(cfg, name, meta, space, view, ings, env, fi, fs)[k]
         == if IdlesFrom(cfg, name, meta, space, view, ings, env, fi, fs)
               && MatchesAll(cfg.deployments, view[k].labels) && k !in env.faults
            then Written(name, Idle(env.now, fi, fs), view[k], space[k]) else space[k]
  {
    AnnotatedFromDeployment(cfg, name, space, ings, env, k);
  }

  lemma AnnotatedFromDeployment(cfg: Config, name: string, space: Space, ings: Space, env: Env, k: Key)
    requires k in space && k.Dep?
    ensures AnnotatedFrom(cfg, name, space, ings, env).0[k] == space[k]
  {
    IngressesOnly(cfg, name, space, ings, env, FirstFault(IngressesOf(cfg, ings, env), env.faults), k);
  }

  lemma DeploymentsOnly(cfg: Config, name: string, annotated: Space, view: Space, env: Env, fi: bool, fs: bool, k: Key)
    requires k in annotated && !k.Dep?
    ensures Patched(name, annotated, view, DeploymentsOf(cfg, view, env), Idle(env.now, fi, fs), env.faults)[k]
         == annotated[k]
  {
    assert k !in DeploymentsOf(cfg, view, env);
  }

  /** When patchIngress reports no error, every listed ingress is annotated and, with at least one of
      them, the namespace is labelled. */
  lemma AnnotatedFromIngress(cfg: Config, name: string, space: Space, ings: Space, env: Env, k: Key)
    requires WellFormed(space, env) && ings.Keys == space.Keys && k in space && k.Ing?
    requires AnnotatedFrom(cfg, name, space, ings, env).1 && !cfg.skipIngressPatch && !cfg.dryRun
    ensures var after := AnnotatedFrom(cfg, name, space, ings, env).0;
            if MatchesAll(cfg.ingress, ings[k].labels)
            then after[k] == Written(name, Annotate, ings[k], space[k])
                 && after[Ns] == Written(name, Mark("true"), space[Ns], space[Ns])
            else after[k] == space[k]
  {
    var keys := IngressesOf(cfg, ings, env);
    AnnotatedWhole(cfg, name, space, ings, env);
    assert k in keys <==> MatchesAll(cfg.ingress, ings[k].labels);
    assert Ns !in keys;
  }

  /** All of patchIngress when nothing fails. */
  lemma AnnotatedWhole(cfg: Config, name: string, space: Space, ings: Space, env: Env)
    requires AnnotatedFrom(cfg, name, space, ings, env).1 && !cfg.skipIngressPatch && !cfg.dryRun
    ensures var keys := IngressesOf(cfg, ings, env);
            var annotated := Patched(name, space, ings, keys, Annotate, {});
            AnnotatedFrom(cfg, name, space, ings, env).0
            == if keys == [] then annotated else Patched(name, annotated, annotated, [Ns], Mark("true"), {})
  {
    var keys := IngressesOf(cfg, ings, env);
    assert keys[..|keys|] == keys;
  }

  /** The namespace object is either untouched or marked idled. */
  lemma IdleRunFromNamespace(cfg: Config, name: string, meta: Object, space: Space, view: Space, ings: Space, env: Env,
                             fi: bool, fs: bool)
    requires Ns in space
    ensures IdleRunFrom(cfg, name, meta, space, view, ings, env, fi, fs)[Ns]
            in {space[Ns], Apply(MarkPatch("true"), space[Ns])}
  {
    AnnotatedFromNamespace(cfg, name, space, ings, env);
    DeploymentsOnly(cfg, name, AnnotatedFrom(cfg, name, space, ings, env).0, view, env, fi, fs, Ns);
  }

  lemma AnnotatedFromNamespace(cfg: Config, name: string, space: Space, ings: Space, env: Env)
    requires Ns in space
    ensures AnnotatedFrom(cfg, name, space, ings, env).0[Ns] in {space[Ns], Apply(MarkPatch("true"), space[Ns])}
  {
    IngressesOnly(cfg, name, space, ings, env, FirstFault(IngressesOf(cfg, ings, env), env.faults), Ns);
  }

  lemma IngressesOnly(cfg: Config, name: string, space: Space, ings: Space, env: Env, n: nat, k: Key)
    requires k in space && !k.Ing? && n <= |IngressesOf(cfg, ings, env)|
    ensures Patched(name, space, ings, IngressesOf(cfg, ings, env)[..n], Annotate, {})[k] == space[k]
  {
    PrefixMember(IngressesOf(cfg, ings, env), n);
  }

  // ---------------------------------------------------------------- with up-to-date Lists

  lemma IdleRunDeployment(cfg: Config, name: string, meta: Object, space: Space, env: Env, fi: bool, fs: bool, k: Key)
    requires WellFormed(space, env) && k in space && k.Dep?
    ensures IdleRun(cfg, name, meta, space, env, fi, fs)[k]
         == if Idles(cfg, name, meta, space, env, fi, fs) && MatchesAll(cfg.deployments, space[k].labels)
               && k !in env.faults
            then Written(name, Idle(env.now, fi, fs), space[k], space[k]) else space[k]
  {
    IdleRunFromDeployment(cfg, name, meta, space, space, space, env, fi, fs, k);
  }

  lemma IdleRunIngress(cfg: Config, name: string, meta: Object, space: Space, env: Env, fi: bool, fs: bool, k: Key)
    requires WellFormed(space, env) && k in space && k.Ing?
    requires Idles(cfg, name, meta, space, env, fi, fs) && !cfg.skipIngressPatch
    ensures var after := IdleRun(cfg, name, meta, space, env, fi, fs);
            if MatchesAll(cfg.ingress, space[k].labels)
            then after[k] == Written(name, Annotate, space[k], space[k])
                 && after[Ns] == Written(name, Mark("true"), space[Ns], space[Ns])
            else after[k] == space[k]
  {
    AnnotatedIngress(cfg, name, space, env, k);
    var annotated := Annotated(cfg, name, space, env).0;
    DeploymentsOnly(cfg, name, annotated, space, env, fi, fs, k);
    DeploymentsOnly(cfg, name, annotated, space, env, fi, fs, Ns);
  }

  lemma AnnotatedIngress(cfg: Config, name: string, space: Space, env: Env, k: Key)
    requires WellFormed(space, env) && k in space && k.Ing?
    requires Annotated(cfg, name, space, env).1 && !cfg.skipIngressPatch && !cfg.dryRun
    ensures var after := Annotated(cfg, name, space, env).0;
            if MatchesAll(cfg.ingress, space[k].labels)
            then after[k] == Written(name, Annotate, space[k], space[k])
                 && after[Ns] == Written(name, Mark("true"), space[Ns], space[Ns])
            else after[k] == space[k]
  {
    AnnotatedFromIngress(cfg, name, space, space, env, k);
  }

  lemma IdleRunNamespace(cfg: Config, name: string, meta: Object, space: Space, env: Env, fi: bool, fs: bool)
    requires Ns in space
    ensures IdleRun(cfg, name, meta, space, env, fi, fs)[Ns] in {space[Ns], Apply(MarkPatch("true"), space[Ns])}
  {
    IdleRunFromNamespace(cfg, name, meta, space, space, space, env, fi, fs);
  }

  // ---------------------------------------------------------------- the hit counter

  /** The samples' sum over the integers. */
  function Sum(samples: seq<string>): int {
    if samples == [] then 0
    else Sum(samples[..|samples| - 1]) + Atoi(samples[|samples| - 1]).Value()
  }

  /** The counter is the true sum up to a multiple of 2^64. */
  lemma {:induction false} HitsWrap(start: Int64, n: int, m: int, samples: seq<string>) returns (k: int)
    requires start == n + m * TWO_TO_64
    ensures Hits(start, samples) == n + Sum(samples) + k * TWO_TO_64
  {
    k := m;
    if samples != [] {
      k := HitsWrap(start, n, m, samples[..|samples| - 1]);
      var a, b := Hits(start, samples[..|samples| - 1]), Atoi(samples[|samples| - 1]).Value();
      k := if a + b > MAX_INT64 then k - 1 else if a + b < MIN_INT64 then k + 1 else k;
    }
  }

  ghost predicate NonNegative(samples: seq<string>) {
    forall i :: 0 <= i < |samples| ==> Atoi(samples[i]).Value() >= 0
  }

  ghost predicate AllZero(samples: seq<string>) {
    forall i :: 0 <= i < |samples| ==> Atoi(samples[i]).Value() == 0
  }

  lemma {:induction false} SumOfNonNegative(samples: seq<string>)
    requires NonNegative(samples)
    ensures Sum(samples) >= 0
    ensures Sum(samples) == 0 <==> AllZero(samples)
  {
    if samples != [] {
      var front := samples[..|samples| - 1];
      assert NonNegative(front) by {
        assert forall i :: 0 <= i < |front| ==> front[i] == samples[i];
      }
      SumOfNonNegative(front);
      assert AllZero(samples) <==> AllZero(front) && Atoi(samples[|samples| - 1]).Value() == 0 by {
        assert forall i :: 0 <= i < |front| ==> front[i] == samples[i];
        assert forall i :: 0 <= i < |front| ==> samples[i] == front[i];
      }
    }
  }

  predicate WrapsToZero(n: int) {
    n % TWO_TO_64 == 0
  }

  /** With non-negative samples the environment counts as quiet exactly when the sum of its samples is
      a multiple of 2^64; only the multiple 0 means that every sample is zero. */
  lemma {:induction false} QuietMeansZero(nginx: seq<string>, traefik: seq<string>)
    requires NonNegative(nginx) && NonNegative(traefik)
    ensures Hits(Hits(0, nginx), traefik) == 0 <==> WrapsToZero(Sum(nginx) + Sum(traefik))
    ensures Sum(nginx) + Sum(traefik) == 0 <==> AllZero(nginx) && AllZero(traefik)
  {
    SumOfNonNegative(nginx);
    SumOfNonNegative(traefik);
    var k := HitsWrap(0, 0, 0, nginx);
    var l := HitsWrap(Hits(0, nginx), Sum(nginx), k, traefik);
    CongruentToZero(Hits(Hits(0, nginx), traefik), Sum(nginx) + Sum(traefik), l);
  }

  lemma CongruentToZero(h: Int64, n: int, k: int)
    requires h == n + k * TWO_TO_64
    ensures h == 0 <==> WrapsToZero(n)
  {
  }

  /** Another multiple is reachable. A sample of 2^63 hits prints as 9223372036854776000, the shortest
      digits of that float64, which Atoi clamps to 2^63 - 1; two of them and a sample of 2 wrap to 0. */
  lemma WrappingHits() returns (nginx: seq<string>)
    ensures nginx == [FormatInt(9223372036854776000), FormatInt(9223372036854776000), FormatInt(2)]
    ensures NonNegative(nginx) && !AllZero(nginx) && Hits(Hits(0, nginx), []) == 0
  {
    AtoiClamps(9223372036854776000);
    AtoiFormatInt(2);
    var a, b := FormatInt(9223372036854776000), FormatInt(2);
    nginx := [a, a, b];
    SumOfThree(a, a, b);
    assert Atoi(nginx[0]).Value() != 0;
    var k := HitsWrap(0, 0, 0, nginx);
    OneWrap(Hits(0, nginx), k);
  }

  lemma OneWrap(h: Int64, k: int)
    requires h == TWO_TO_64 + k * TWO_TO_64
    ensures h == 0
  {
  }

  lemma SumOfThree(a: string, b: string, c: string)
    ensures Sum([a, b, c]) == Atoi(a).Value() + Atoi(b).Value() + Atoi(c).Value()
  {
    assert [a, b, c][..2] == [a, b] && [a, b][..1] == [a] && [a][..0] == [];
    assert Sum([a]) == Atoi(a).Value();
    assert Sum([a, b]) == Sum([a]) + Atoi(b).Value();
  }
}
