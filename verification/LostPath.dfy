/** Why WakePath asks for no idle beside an Unidle, for a first List that shows idled deployments as
    idled and for deployment patches that succeed: without any of them, an environment can end up idled
    with an ingress that does not lead to the unidler. */
module LostPath {
  import opened CommaList
  import opened Clusters
  import opened Patches
  import opened Idlers
  import opened IdlerFacts
  import opened Unidlers
  import opened UnidlerFacts
  import opened Protocol
  import opened Safety
  import opened WakePath
  import opened UnidlePath
  import opened Sequential

  /** A namespace with nothing idled, one selected deployment and one selected ingress, and a world in
      which every call succeeds. */
  ghost predicate Setting(cfg: Config, name: string, base: Space, env: Env, d: Key, i: Key) {
    && CommaFree(name) && Independent(cfg.ingress) && !cfg.skipIngressPatch && !cfg.dryRun
    && WellFormed(base, env) && env.listsDeployments && env.listsIngresses && env.faults == {}
    && NoneIdled(base)
    && d in base && d.Dep? && MatchesAll(cfg.deployments, base[d].labels)
    && i in base && Selected(cfg, i, base[i])
  }

  /** An Unidle between the two halves of an idle: it finds nothing to scale up and strips the
      ingresses the idle has just annotated; then the idle scales down. */
  lemma OverlapLosesPath(cfg: Config, name: string, base: Space, env: Env, d: Key, i: Key)
    returns (events: seq<Event>)
    requires Setting(cfg, name, base, env, d, i)
    ensures ValidRun(cfg, name, Boot(base), events)
    ensures var objs := Run(cfg, name, Boot(base), events).objs;
            d in objs && IsIdled(d, objs[d]) && !Wakeable(cfg, name, objs)
  {
    var idle, unidle := IdleThread(IdleLists, env.now, false, false), UnidleThread(UnidleLists, false);
    var s := Boot(base).(threads := [idle, unidle]);
    StartTwo(cfg, name, base, idle, unidle);
    var c := Choice(base, env.order, true, true);
    OneMove(cfg, name, s, 0, c);
    var listed := Run(cfg, name, s, [Move(0, c)]);
    var deps := DeploymentsOf(cfg, base, env);
    var (annotated, ok) := Annotated(cfg, name, base, env);
    var first := IngressIsRun(cfg, name, listed, 0, base, env, false, false, base, deps);
    Compose(cfg, name, s, [Move(0, c)], base, 0, listed.threads[0], first, annotated,
            IdleThread(Idling(base, deps), env.now, false, false));
    first := [Move(0, c)] + first;
    var middle := Run(cfg, name, s, first);
    var between := PresentUnidleWork(cfg, name, middle, 1, false, env);
    RunConcat(cfg, name, s, first, between);
    var stripped := Run(cfg, name, s, first + between);
    var last := IdlingIsRun(cfg, name, stripped, 0, env, false, false, base, deps);
    RunConcat(cfg, name, s, first + between, last);
    StartThen(cfg, name, base, idle, unidle, first + between + last);
    events := [Start(idle), Start(unidle)] + (first + between + last);
    NoWayBack(cfg, name, base, env, d, i);
  }

  lemma StartTwo(cfg: Config, name: string, base: Space, a: Thread, b: Thread)
    requires Ns in base && Initial(a) && Initial(b)
    ensures Sound(Boot(base)) && Sound(Boot(base).(threads := [a, b]))
  {
    NextSound(cfg, name, Boot(base), Start(a));
    NextSound(cfg, name, Boot(base).(threads := [a]), Start(b));
  }

  lemma StartThen(cfg: Config, name: string, base: Space, a: Thread, b: Thread, events: seq<Event>)
    requires Initial(a) && Initial(b) && ValidRun(cfg, name, Boot(base).(threads := [a, b]), events)
    ensures ValidRun(cfg, name, Boot(base), [Start(a), Start(b)] + events)
    ensures Run(cfg, name, Boot(base), [Start(a), Start(b)] + events)
            == Run(cfg, name, Boot(base).(threads := [a, b]), events)
  {
    var all := [Start(a), Start(b)] + events;
    assert all[1..] == [Start(b)] + events && all[1..][1..] == events;
    assert Next(cfg, name, Boot(base), Start(a)) == Boot(base).(threads := [a]);
    assert Next(cfg, name, Boot(base).(threads := [a]), Start(b)) == Boot(base).(threads := [a, b]);
    assert ValidRun(cfg, name, Boot(base).(threads := [a]), all[1..]);
  }

  /** An annotated and then stripped ingress is still selected, and leads nowhere. */
  lemma StrippedAfterAnnotate(cfg: Config, name: string, i: Key, o: Object)
    requires CommaFree(name) && Independent(cfg.ingress) && Selected(cfg, i, o)
    ensures var on := Written(name, Annotate, o, o);
            var off := Written(name, Strip, on, on);
            Selected(cfg, i, off) && !Carries(name, off)
  {
    var on := Written(name, Annotate, o, o);
    var off := Written(name, Strip, on, on);
    CarriesAfterStrip(name, on, on);
    AnnotatedCarries(name, o, o);
    CarryingIsTaken(name, on);
    WrittenElsewhere(name, Annotate, i, o, o);
    WrittenElsewhere(name, Strip, i, on, on);
    SameElsewhereTransitive(i, o, on, off);
    SelectionStable(cfg.ingress, i, o, off);
  }

  lemma NotWakeable(cfg: Config, name: string, objs: Space, d: Key, i: Key)
    requires d in objs && IsIdled(d, objs[d])
    requires i in objs && Selected(cfg, i, objs[i]) && !Carries(name, objs[i])
    ensures !Wakeable(cfg, name, objs)
  {
  }

  /** The namespace at the end of the overlap. */
  lemma NoWayBack(cfg: Config, name: string, base: Space, env: Env, d: Key, i: Key)
    requires Setting(cfg, name, base, env, d, i)
    ensures var unidled := Unidled(name, Annotated(cfg, name, base, env).0, env);
            var objs := Patched(name, unidled, base, DeploymentsOf(cfg, base, env), Idle(env.now, false, false),
                                env.faults);
            d in objs && IsIdled(d, objs[d]) && !Wakeable(cfg, name, objs)
  {
    var unidled := Unidled(name, Annotated(cfg, name, base, env).0, env);
    var objs := Patched(name, unidled, base, DeploymentsOf(cfg, base, env), Idle(env.now, false, false), env.faults);
    NoWayBackIngress(cfg, name, base, env, i);
    DeploymentsOnly(cfg, name, unidled, base, env, false, false, i);
    DeploymentIdled(cfg, name, unidled, base, env, d);
    NotWakeable(cfg, name, objs, d, i);
  }

  lemma NoWayBackIngress(cfg: Config, name: string, base: Space, env: Env, i: Key)
    requires WellFormed(base, env) && env.listsDeployments && env.listsIngresses && env.faults == {}
    requires CommaFree(name) && Independent(cfg.ingress) && !cfg.skipIngressPatch && !cfg.dryRun
    requires i in base && Selected(cfg, i, base[i])
    ensures var unidled := Unidled(name, Annotated(cfg, name, base, env).0, env);
            Selected(cfg, i, unidled[i]) && !Carries(name, unidled[i])
  {
    AllAnnotated(cfg, name, base, env);
    AnnotatedIngress(cfg, name, base, env, i);
    UnidledIngress(name, Annotated(cfg, name, base, env).0, env, i);
    StrippedAfterAnnotate(cfg, name, i, base[i]);
  }

  lemma DeploymentIdled(cfg: Config, name: string, space: Space, view: Space, env: Env, d: Key)
    requires WellFormed(view, env) && env.faults == {} && d in space && d in view && d.Dep?
             && MatchesAll(cfg.deployments, view[d].labels)
    ensures IsIdled(d, Patched(name, space, view, DeploymentsOf(cfg, view, env), Idle(env.now, false, false),
                               env.faults)[d])
  {
    assert d in DeploymentsOf(cfg, view, env);
    IdledByPatch(name, view[d], space[d], env.now, false);
  }

  lemma AllAnnotated(cfg: Config, name: string, space: Space, env: Env)
    requires env.listsIngresses && env.faults == {}
    ensures Annotated(cfg, name, space, env).1
  {
  }

  lemma IdledByPatch(name: string, snap: Object, o: Object, now: string, fi: bool)
    ensures Has(Written(name, Idle(now, fi, false), snap, o).labels, Idled, "true")
  {
    IdleMarks(name, snap, o, now, fi, false);
  }

  /** A complete idle followed by an Unidle whose first List still shows the namespace as it was: it
      finds nothing to scale up and strips the ingresses. The two runs do not overlap. */
  lemma StaleListLosesPath(cfg: Config, name: string, base: Space, env: Env, d: Key, i: Key)
    returns (events: seq<Event>)
    requires Setting(cfg, name, base, env, d, i)
    requires ShouldIdle(cfg, base[Ns], base, env, true, false)
    ensures ValidRun(cfg, name, Boot(base), events)
    ensures var objs := Run(cfg, name, Boot(base), events).objs;
            d in objs && IsIdled(d, objs[d]) && !Wakeable(cfg, name, objs)
  {
    var idle, unidle := IdleThread(IdleLists, env.now, true, false), UnidleThread(UnidleLists, false);
    var s := Boot(base).(threads := [idle, unidle]);
    StartTwo(cfg, name, base, idle, unidle);
    var first := IdleIsRun(cfg, name, base[Ns], s, 0, env, true, false);
    var idled := Run(cfg, name, s, first);
    var tail := UnidleWorkIsRun(cfg, name, idled, 1, false, base, idled.objs, env);
    RunConcat(cfg, name, s, first, tail);
    StartThen(cfg, name, base, idle, unidle, first + tail);
    events := [Start(idle), Start(unidle)] + (first + tail);
    StillIdled(cfg, name, base, env, d, i);
  }

  /** The namespace at the end of the stale Unidle. */
  lemma StillIdled(cfg: Config, name: string, base: Space, env: Env, d: Key, i: Key)
    requires Setting(cfg, name, base, env, d, i) && ShouldIdle(cfg, base[Ns], base, env, true, false)
    ensures var idled := IdleRun(cfg, name, base[Ns], base, env, true, false);
            var objs := UnidledFrom(name, idled, base, idled, env);
            d in objs && IsIdled(d, objs[d]) && !Wakeable(cfg, name, objs)
  {
    var idled := IdleRun(cfg, name, base[Ns], base, env, true, false);
    AfterForcedIdle(cfg, name, base, env, d, i);
    StillIdledIn(name, idled, base, idled, env, d);
    StrippedPath(cfg, name, idled, base, idled, env, i, base[i]);
    NotWakeable(cfg, name, UnidledFrom(name, idled, base, idled, env), d, i);
  }

  /** After a complete forced idle the deployment is idled and the ingress annotated. */
  lemma AfterForcedIdle(cfg: Config, name: string, base: Space, env: Env, d: Key, i: Key)
    requires Setting(cfg, name, base, env, d, i) && ShouldIdle(cfg, base[Ns], base, env, true, false)
    ensures var idled := IdleRun(cfg, name, base[Ns], base, env, true, false);
            IsIdled(d, idled[d]) && idled[i] == Written(name, Annotate, base[i], base[i])
  {
    AllAnnotated(cfg, name, base, env);
    IdleRunDeployment(cfg, name, base[Ns], base, env, true, false, d);
    IdledByPatch(name, base[d], base[d], env.now, true);
    IdleRunIngress(cfg, name, base[Ns], base, env, true, false, i);
  }

  lemma StillIdledIn(name: string, space: Space, view: Space, ings: Space, env: Env, d: Key)
    requires WellFormed(space, env) && view.Keys == space.Keys && d in space && d.Dep? && IsIdled(d, space[d])
    requires IsIdled(d, view[d]) ==> d in env.faults
    ensures IsIdled(d, UnidledFrom(name, space, view, ings, env)[d])
  {
    UnidledFromDeployment(name, space, view, ings, env, d);
    NothingToWake(name, d, view[d], space[d]);
  }

  lemma NothingToWake(name: string, d: Key, snap: Object, o: Object)
    requires d.Dep?
    ensures !IsIdled(d, snap) ==> Written(name, Wake, snap, o) == o
  {
  }

  lemma StrippedPath(cfg: Config, name: string, space: Space, view: Space, ings: Space, env: Env, i: Key, o: Object)
    requires WellFormed(space, env) && ings.Keys == space.Keys && env.listsDeployments && env.listsIngresses
    requires i in space && i !in env.faults && space[i] == Written(name, Annotate, o, o) && ings[i] == space[i]
    requires CommaFree(name) && Independent(cfg.ingress) && Selected(cfg, i, o)
    ensures var after := UnidledFrom(name, space, view, ings, env)[i];
            Selected(cfg, i, after) && !Carries(name, after)
  {
    UnidledFromIngress(name, space, view, ings, env, i);
    StrippedAfterAnnotate(cfg, name, i, o);
  }

  /** A complete idle followed by a complete Unidle in which the patch of one deployment fails: that
      deployment stays idled, the ingresses are stripped all the same, and nothing leads back. */
  lemma FailedPatchLosesPath(cfg: Config, name: string, base: Space, env: Env, d: Key, i: Key)
    requires Setting(cfg, name, base, env, d, i) && ShouldIdle(cfg, base[Ns], base, env, true, false)
    ensures var idled := IdleRun(cfg, name, base[Ns], base, env, true, false);
            var objs := Unidled(name, idled, env.(faults := {d}));
            && Wakeable(cfg, name, idled)
            && d in objs && IsIdled(d, objs[d]) && !Wakeable(cfg, name, objs)
  {
    var idled := IdleRun(cfg, name, base[Ns], base, env, true, false);
    var failing := env.(faults := {d});
    AfterForcedIdle(cfg, name, base, env, d, i);
    var woken := WokenFrom(name, idled, idled, failing);
    WokenOthers(name, idled, idled, failing, i);
    StillIdledIn(name, idled, idled, woken, failing, d);
    StrippedPath(cfg, name, idled, idled, woken, failing, i, base[i]);
    NotWakeable(cfg, name, Unidled(name, idled, failing), d, i);
    IdleKeepsPath(cfg, name, base, base, base, env, true, false);
  }
}
