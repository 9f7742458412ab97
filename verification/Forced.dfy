/** What the force labels promise, from the label to the request after it (README.md:19-23). */
module Forced {
  import opened Options
  import opened Decimal
  import opened Clusters
  import opened Patches
  import opened Idlers
  import opened IdlerFacts
  import opened Unidlers
  import opened UnidlerFacts
  import opened Reconcilers
  import opened Protocol
  import opened Sticky
  import opened Sequential

  /** A Reconcile handles `trigger`, gets as far as the deployments, and its patch of `d` goes through. */
  ghost predicate ForcesDown(cfg: Config, name: string, space: Space, env: Env, trigger: Tag, d: Key) {
    && WellFormed(space, env)
    && Triggers(space) != [] && Triggers(space)[0] == trigger && (trigger == ForceIdled || trigger == ForceScaled)
    && Idles(cfg, name, space[Ns], space, env, trigger == ForceIdled, trigger == ForceScaled)
    && d in space && d.Dep? && MatchesAll(cfg.deployments, space[d].labels) && d !in env.faults
  }

  /** A deployment after such a Reconcile. */
  lemma ReconciledDeployment(cfg: Config, name: string, space: Space, env: Env, trigger: Tag, d: Key, k: Key)
    requires ForcesDown(cfg, name, space, env, trigger, d) && k in space && k.Dep?
    ensures var after := Reconciled(cfg, name, space, env);
            && after.Keys == space.Keys
            && after[k] == if MatchesAll(cfg.deployments, space[k].labels) && k !in env.faults
                           then Written(name, Idle(env.now, trigger == ForceIdled, trigger == ForceScaled), space[k],
                                        space[k])
                           else space[k]
  {
    IdleRunDeployment(cfg, name, space[Ns], space, env, trigger == ForceIdled, trigger == ForceScaled, k);
  }

  /** Force-idled: scaled down at once, and no deployment becomes force-scaled, so the next request is
      not held back; the Unidle it starts restores the replica count and takes the force label off. */
  lemma ForceIdleComesBack(cfg: Config, name: string, space: Space, env: Env, d: Key, later: Env)
    requires ForcesDown(cfg, name, space, env, ForceIdled, d) && 1 <= space[d].replicas <= MAX_INT32
    requires WellFormed(space, later) && later.listsDeployments && d !in later.faults
    ensures var after := Reconciled(cfg, name, space, env);
            var back := Unidled(name, after, later);
            && after[d].replicas == 0 && Has(after[d].labels, ForceIdled, "true")
            && (ForceScaledSeen(after) <==> ForceScaledSeen(space))
            && back[d].replicas == space[d].replicas && ForceIdled !in back[d].labels
  {
    ReconciledDeployment(cfg, name, space, env, ForceIdled, d, d);
    IdledComesBack(name, Reconciled(cfg, name, space, env), d, space[d], env.now, later);
    ForceIdleAddsNoScaled(cfg, name, space, env, d);
  }

  /** A deployment that was force-idled from `o` and is then unidled. */
  lemma IdledComesBack(name: string, space: Space, d: Key, o: Object, now: string, env: Env)
    requires WellFormed(space, env) && env.listsDeployments && d !in env.faults && d in space && d.Dep?
    requires space[d] == Written(name, Idle(now, true, false), o, o) && 1 <= o.replicas <= MAX_INT32
    ensures space[d].replicas == 0 && Has(space[d].labels, ForceIdled, "true")
    ensures var back := Unidled(name, space, env)[d];
            back.replicas == o.replicas && ForceIdled !in back.labels
  {
    IdleMarks(name, o, o, now, true, false);
    IdleThenWake(name, o, now, true, false);
    UnidledDeployment(name, space, env, d);
  }

  lemma ForceIdleAddsNoScaled(cfg: Config, name: string, space: Space, env: Env, d: Key)
    requires ForcesDown(cfg, name, space, env, ForceIdled, d)
    ensures ForceScaledSeen(Reconciled(cfg, name, space, env)) <==> ForceScaledSeen(space)
  {
    var after := Reconciled(cfg, name, space, env);
    ReconciledDeployment(cfg, name, space, env, ForceIdled, d, d);
    forall k | k in space && k.Dep?
      ensures Get(after[k].labels, ForceScaled) == Get(space[k].labels, ForceScaled)
    {
      ReconciledDeployment(cfg, name, space, env, ForceIdled, d, k);
      IdleMarks(name, space[k], space[k], env.now, true, false);
    }
    SameScaled(space, after);
  }

  lemma SameScaled(space: Space, after: Space)
    requires after.Keys == space.Keys
    requires forall k :: k in space && k.Dep? ==> Get(after[k].labels, ForceScaled) == Get(space[k].labels, ForceScaled)
    ensures ForceScaledSeen(after) <==> ForceScaledSeen(space)
  {
    forall k | k in space
      ensures Scaled.Selects(k, after[k]) <==> Scaled.Selects(k, space[k])
    {
      assert k.Dep? ==> Get(after[k].labels, ForceScaled) == Get(space[k].labels, ForceScaled);
    }
  }

  /** The one step that matters: the patch of a force-scale lands on `d`, computed from whatever version,
      with requests, idles and finishing Unidles in any state beside it. */
  ghost predicate ForceScaleLands(s: System, tid: nat, c: Choice, d: Key) {
    && tid < |s.threads| && c.ok
    && Pending(s.objs, s.threads[tid]).Some?
    && var w := Pending(s.objs, s.threads[tid]).value;
       w.key == d && w.op.Idle? && w.op.forceScale
  }

  lemma LandedIsStuck(cfg: Config, name: string, s: System, tid: nat, c: Choice, d: Key)
    requires Sound(s) && Held(s) && Enabled(s, Move(tid, c)) && ForceScaleLands(s, tid, c, d)
    requires forall k :: k in s.objs ==> s.objs[k].replicas >= 0
    ensures var after := Next(cfg, name, s, Move(tid, c));
            Stuck(after, d) && after.objs[d].replicas == 0
  {
    NextSound(cfg, name, s, Move(tid, c));
    MoveHolds(cfg, name, s, tid, c);
    LandedObject(name, s, tid, c, d);
  }

  lemma LandedObject(name: string, s: System, tid: nat, c: Choice, d: Key)
    requires Sound(s) && ForceScaleLands(s, tid, c, d)
    ensures s.threads[tid].IdleThread? && d.Dep? && d in s.objs
    ensures var objs := MoveObjs(name, s, tid, c);
            && objs == s.objs[d := objs[d]]
            && objs[d].replicas == 0 && Has(objs[d].labels, ForceScaled, "true")
  {
    PendingSound(s, s.threads[tid]);
    var w := Pending(s.objs, s.threads[tid]).value;
    IdleMarks(name, w.snap, s.objs[d], w.op.now, w.op.forceIdle, true);
    IdleWritten(name, w.snap, s.objs[d], w.op.now, w.op.forceIdle, true);
  }

  /** From that step on the environment stays down, provided each request's List shows `d` as the patch
      left it or in a later version. The rest of the Reconcile is part of what may interleave. */
  lemma LandedStaysDown(cfg: Config, name: string, s: System, tid: nat, c: Choice, d: Key, events: seq<Event>)
    requires Sound(s) && Held(s) && Enabled(s, Move(tid, c)) && ForceScaleLands(s, tid, c, d)
    requires forall k :: k in s.objs ==> s.objs[k].replicas >= 0
    requires var after := Next(cfg, name, s, Move(tid, c));
             && d in after.objs && ValidRun(cfg, name, after, events)
             && RecentRun(cfg, name, after, d, Older(after, d), events)
    requires forall e :: e in events ==> Ordinary(e)
    ensures var after := Next(cfg, name, s, Move(tid, c));
            AlwaysHeld(cfg, name, after, events) && StaysDown(Run(cfg, name, after, events), d)
  {
    LandedIsStuck(cfg, name, s, tid, c, d);
    StuckStays(cfg, name, Next(cfg, name, s, Move(tid, c)), d, events);
  }

  /** A system in which an Unidle has come and gone is held again. */
  lemma UnidledIsHeld(cfg: Config, name: string, s: System, tid: nat, h: bool, env: Env) returns (events: seq<Event>)
    requires Sound(s) && tid < |s.threads| && s.threads[tid] == UnidleThread(UnidleLists, h)
    requires WellFormed(s.objs, env) && Held(s.(threads := s.threads[tid := UnidleThread(UnidleDone, h)]))
    ensures EndsIn(cfg, name, s, events, Unidled(name, s.objs, env), s.threads[tid := UnidleThread(UnidleDone, h)],
                   false)
    ensures Held(Run(cfg, name, s, events))
  {
    events := UnidleIsRun(cfg, name, s, tid, h, env);
  }

  /** A whole Reconcile, in any system in which no Unidle may still wake a deployment, scales `d` down at
      once and leaves it stuck, whatever older versions the cache may still show. */
  lemma ForceScaleTakesHold(cfg: Config, name: string, s: System, env: Env, d: Key) returns (events: seq<Event>)
    requires Sound(s) && Held(s) && ForcesDown(cfg, name, s.objs, env, ForceScaled, d)
    requires forall k :: k in s.objs ==> s.objs[k].replicas >= 0
    ensures ValidRun(cfg, name, s, events)
    ensures var after := Run(cfg, name, s, events);
            && after.objs == Reconciled(cfg, name, s.objs, env)
            && Stuck(after, d) && after.objs[d].replicas == 0
  {
    events := ReconcileIsRun(cfg, name, s, env);
    ForceScaledDown(cfg, name, s.objs, env, d);
    StillHeld(s, Run(cfg, name, s, events), [Worker(ForceScaled, env, true), ClearThread(ForceScaled, true)]);
  }

  lemma StillHeld(s: System, s': System, more: seq<Thread>)
    requires Held(s) && s'.threads == s.threads + more
    requires forall t :: t in more ==> t.IdleThread? || t.ClearThread?
    ensures Held(s')
  {
    assert forall i :: 0 <= i < |more| ==> more[i] in more;
  }

  lemma ForceScaledDown(cfg: Config, name: string, space: Space, env: Env, d: Key)
    requires ForcesDown(cfg, name, space, env, ForceScaled, d)
    requires forall k :: k in space ==> space[k].replicas >= 0
    ensures var after := Reconciled(cfg, name, space, env);
            && d in after && after[d].replicas == 0 && Has(after[d].labels, ForceScaled, "true")
            && forall k :: k in after ==> after[k].replicas >= 0
  {
    ReconciledDeployment(cfg, name, space, env, ForceScaled, d, d);
    IdleMarks(name, space[d], space[d], env.now, false, true);
    IdleWritten(name, space[d], space[d], env.now, false, true);
    ReconciledNonNegative(cfg, name, space, env, d);
  }

  /** At 0 it stays: however requests, service idles and force labels interleave after that Reconcile, no
      Unidle starts, provided each request's List shows `d` as the Reconcile left it or in a later version.
      Everything else may work from versions older than the Reconcile. */
  lemma ForceScaleStaysDown(cfg: Config, name: string, s: System, env: Env, d: Key, events: seq<Event>)
    returns (reconcile: seq<Event>)
    requires Sound(s) && Held(s) && ForcesDown(cfg, name, s.objs, env, ForceScaled, d)
    requires forall k :: k in s.objs ==> s.objs[k].replicas >= 0
    requires forall e :: e in events ==> Ordinary(e)
    ensures ValidRun(cfg, name, s, reconcile)
    ensures var after := Run(cfg, name, s, reconcile);
            && after.objs == Reconciled(cfg, name, s.objs, env) && d in after.objs
            && (ValidRun(cfg, name, after, events) && RecentRun(cfg, name, after, d, Older(after, d), events) ==>
                  AlwaysHeld(cfg, name, after, events) && StaysDown(Run(cfg, name, after, events), d))
  {
    reconcile := ForceScaleTakesHold(cfg, name, s, env, d);
    var after := Run(cfg, name, s, reconcile);
    if ValidRun(cfg, name, after, events) && RecentRun(cfg, name, after, d, Older(after, d), events) {
      StuckStays(cfg, name, after, d, events);
    }
  }

  lemma StuckStays(cfg: Config, name: string, s: System, d: Key, events: seq<Event>)
    requires Stuck(s, d) && s.objs[d].replicas == 0 && ValidRun(cfg, name, s, events)
    requires RecentRun(cfg, name, s, d, Older(s, d), events) && forall e :: e in events ==> Ordinary(e)
    ensures AlwaysHeld(cfg, name, s, events) && StaysDown(Run(cfg, name, s, events), d)
  {
    ForceScaleSticks(cfg, name, s, d, Older(s, d), events);
  }

  ghost predicate StaysDown(s: System, d: Key) {
    && d in s.objs && s.objs[d].replicas == 0 && Has(s.objs[d].labels, ForceScaled, "true")
    && forall i :: 0 <= i < |s.threads| && s.threads[i].UnidleThread? ==> !MayWake(s.threads[i].upc)
  }

  /** A request that is not told so goes on to start a run of Unidle, unless the namespace is locked. */
  lemma UninformedStarts(cfg: Config, name: string, s: System, tid: nat, c: Choice) returns (events: seq<Event>)
    requires Sound(s) && !s.locked && Enabled(s, Move(tid, c))
    requires s.threads[tid] == RequestThread(Checking) && !Informed(s, Move(tid, c))
    ensures ValidRun(cfg, name, Next(cfg, name, s, Move(tid, c)), events)
    ensures UnidleThread(UnidleLists, true) in Run(cfg, name, Next(cfg, name, s, Move(tid, c)), events).threads
  {
    NextSound(cfg, name, s, Move(tid, c));
    var s' := Next(cfg, name, s, Move(tid, c));
    events := LoadAndGo(cfg, name, s', tid);
    assert Run(cfg, name, s', events).threads[|s'.threads|] == UnidleThread(UnidleLists, true);
  }

  /** Recent answers are needed: right after a force-scale, one whose List still shows the
      namespace as it was before starts a run of Unidle. */
  lemma StaleListUnsticks(cfg: Config, name: string, base: Space, env: Env, d: Key) returns (events: seq<Event>)
    requires ForcesDown(cfg, name, base, env, ForceScaled, d) && !ForceScaledSeen(base)
    requires forall k :: k in base ==> base[k].replicas >= 0
    ensures ValidRun(cfg, name, Boot(base), events)
    ensures var after := Run(cfg, name, Boot(base), events);
            && d in after.objs && Has(after.objs[d].labels, ForceScaled, "true") && after.objs[d].replicas == 0
            && UnidleThread(UnidleLists, true) in after.threads
  {
    var s := Boot(base);
    events := ReconcileIsRun(cfg, name, s, env);
    ForceScaledDown(cfg, name, base, env, d);
    var s1 := Run(cfg, name, s, events);
    var request := StaleRequest(cfg, name, s1, base, env);
    RunConcat(cfg, name, s, events, request);
    events := events + request;
  }

  /** A request whose List shows nothing force-scaled. */
  lemma StaleRequest(cfg: Config, name: string, s: System, view: Space, env: Env) returns (events: seq<Event>)
    requires Sound(s) && !s.locked && Answers(view, s.objs, s.seen) && WellFormed(view, env) && !ForceScaledSeen(view)
    ensures ValidRun(cfg, name, s, events)
    ensures var after := Run(cfg, name, s, events);
            after.objs == s.objs && UnidleThread(UnidleLists, true) in after.threads
  {
    var n := |s.threads|;
    var start := Start(RequestThread(Checking));
    OneEvent(cfg, name, s, start);
    var s1 := Run(cfg, name, s, [start]);
    var rest := HandlerIsRun(cfg, name, s1, n, view, env);
    RunConcat(cfg, name, s, [start], rest);
    events := [start] + rest;
    var after := Run(cfg, name, s, events);
    assert after.threads[n + 1] == UnidleThread(UnidleLists, true);
  }

  lemma ReconciledNonNegative(cfg: Config, name: string, space: Space, env: Env, d: Key)
    requires ForcesDown(cfg, name, space, env, ForceScaled, d)
    requires forall k :: k in space ==> space[k].replicas >= 0
    ensures var after := Reconciled(cfg, name, space, env);
            after.Keys == space.Keys && forall k :: k in after ==> after[k].replicas >= 0
  {
    var after := Reconciled(cfg, name, space, env);
    ReconciledDeployment(cfg, name, space, env, ForceScaled, d, d);
    forall k | k in space
      ensures after[k].replicas >= 0
    {
      if k.Dep? {
        ReconciledDeployment(cfg, name, space, env, ForceScaled, d, k);
        IdleWritten(name, space[k], space[k], env.now, false, true);
      } else {
        OthersKeepReplicas(cfg, name, space, env, k);
      }
    }
  }

  /** Only deployments have replicas to lose. */
  lemma OthersKeepReplicas(cfg: Config, name: string, space: Space, env: Env, k: Key)
    requires Ns in space && k in space && !k.Dep? && Triggers(space) != [] && Triggers(space)[0] == ForceScaled
    ensures k in Reconciled(cfg, name, space, env) && Reconciled(cfg, name, space, env)[k].replicas == space[k].replicas
  {
    AnnotatedReplicas(cfg, name, space, env, k);
    DeploymentsOnly(cfg, name, Annotated(cfg, name, space, env).0, space, env, false, true, k);
    var idled := IdleRun(cfg, name, space[Ns], space, env, false, true);
    PatchedReplicas(name, idled, idled, [Ns], Clear(ForceScaled), if env.clearFault then {Ns} else {}, k);
  }

  lemma AnnotatedReplicas(cfg: Config, name: string, space: Space, env: Env, k: Key)
    requires k in space
    ensures Annotated(cfg, name, space, env).0[k].replicas == space[k].replicas
  {
    var keys := IngressesOf(cfg, space, env)[..FirstFault(IngressesOf(cfg, space, env), env.faults)];
    var annotated := Patched(name, space, space, keys, Annotate, {});
    PatchedReplicas(name, space, space, keys, Annotate, {}, k);
    PatchedReplicas(name, annotated, annotated, [Ns], Mark("true"), env.faults, k);
  }

  lemma PatchedReplicas(name: string, space: Space, view: Space, keys: seq<Key>, op: Op, faults: set<Key>, k: Key)
    requires k in space && !op.Idle? && !op.Wake?
    ensures Patched(name, space, view, keys, op, faults)[k].replicas == space[k].replicas
  {
  }
}
