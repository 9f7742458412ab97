/** What becomes of a deployment's replica count over whole serialized runs. */
module Replicas {
  import opened Options
  import opened Decimal
  import opened Clusters
  import opened Patches
  import opened Idlers
  import opened Unidlers
  import opened IdlerFacts
  import opened UnidlerFacts
  import opened Calls

  /** What one successful run does to a deployment. */
  datatype Turn = IdleTurn(now: string, forceIdle: bool, forceScale: bool) | WakeTurn

  function Turned(name: string, d: Object, turn: Turn): Object {
    match turn
    case IdleTurn(now, fi, fs) => Written(name, Idle(now, fi, fs), d, d)
    case WakeTurn => if Has(d.labels, Watch, "true") then Written(name, Wake, d, d) else d
  }

  function AfterTurns(name: string, d: Object, turns: seq<Turn>): Object
    decreases |turns|
  {
    if turns == [] then d else AfterTurns(name, Turned(name, d, turns[0]), turns[1..])
  }

  /** Somewhere along the way the deployment is idled while it has no replicas. */
  predicate Reidled(name: string, d: Object, turns: seq<Turn>)
    decreases |turns|
  {
    turns != [] && ((turns[0].IdleTurn? && d.replicas == 0) || Reidled(name, Turned(name, d, turns[0]), turns[1..]))
  }

  /** Running with `r` replicas, or idled and able to come back to them. */
  predicate Remembers(d: Object, r: int) {
    || d.replicas == r
    || (d.replicas == 0 && Has(d.labels, Watch, "true") && Has(d.labels, Idled, "true") && WakeReplicas(d) == r)
  }

  lemma TurnRemembers(name: string, d: Object, r: int, turn: Turn)
    requires 1 <= r <= MAX_INT32 && Remembers(d, r)
    ensures Remembers(Turned(name, d, turn), if turn.IdleTurn? && d.replicas == 0 then 1 else r)
  {
    match turn
    case IdleTurn(now, fi, fs) =>
      IdleWritten(name, d, d, now, fi, fs);
      WakeReplicasOfIdled(d, now, fi, fs);
    case WakeTurn =>
      if d.replicas == 0 {
        WakeWritten(name, d, d);
      }
  }

  lemma {:induction false} TurnsRemember(name: string, d: Object, r: int, turns: seq<Turn>)
    requires 1 <= r <= MAX_INT32 && Remembers(d, r)
    ensures Remembers(AfterTurns(name, d, turns), if Reidled(name, d, turns) then 1 else r)
    decreases |turns|
  {
    if turns != [] {
      TurnRemembers(name, d, r, turns[0]);
      var back := if turns[0].IdleTurn? && d.replicas == 0 then 1 else r;
      TurnsRemember(name, Turned(name, d, turns[0]), back, turns[1..]);
    }
  }

  // ---------------------------------------------------------------- whole runs on a namespace

  ghost function AfterCalls(cfg: Config, name: string, space: Space, calls: seq<Call>): (r: Space)
    requires Ns in space
    ensures r.Keys == space.Keys
    decreases |calls|
  {
    if calls == [] then space else AfterCalls(cfg, name, Called(cfg, name, space, calls[0]), calls[1..])
  }

  /** The call lists this namespace's objects, and its patch of `k` does not fail. */
  ghost predicate Succeeds(space: Space, call: Call, k: Key) {
    WellFormed(space, call.env) && k !in call.env.faults && (call.UnidleCall? ==> call.env.listsDeployments)
  }

  /** What a call amounts to for the deployment `k`; an idler run may decide to leave it alone. */
  ghost function TurnOf(cfg: Config, name: string, space: Space, call: Call, k: Key): seq<Turn>
    requires Ns in space && k in space
  {
    match call
    case UnidleCall(_) => [WakeTurn]
    case IdleCall(env, fi, fs) =>
      if Idles(cfg, name, space[Ns], space, env, fi, fs) && MatchesAll(cfg.deployments, space[k].labels)
      then [IdleTurn(env.now, fi, fs)] else []
  }

  ghost function TurnsOf(cfg: Config, name: string, space: Space, calls: seq<Call>, k: Key): seq<Turn>
    requires Ns in space && k in space
    decreases |calls|
  {
    if calls == [] then []
    else TurnOf(cfg, name, space, calls[0], k) + TurnsOf(cfg, name, Called(cfg, name, space, calls[0]), calls[1..], k)
  }

  lemma CallIsTurn(cfg: Config, name: string, space: Space, call: Call, k: Key)
    requires Ns in space && k in space && k.Dep? && Succeeds(space, call, k)
    ensures Called(cfg, name, space, call)[k] == AfterTurns(name, space[k], TurnOf(cfg, name, space, call, k))
  {
    match call
    case UnidleCall(env) =>
      UnidledDeployment(name, space, env, k);
      assert AfterTurns(name, space[k], [WakeTurn]) == Turned(name, space[k], WakeTurn);
    case IdleCall(env, fi, fs) =>
      IdleRunDeployment(cfg, name, space[Ns], space, env, fi, fs, k);
      var turn := IdleTurn(env.now, fi, fs);
      assert AfterTurns(name, space[k], [turn]) == Turned(name, space[k], turn);
  }

  lemma {:induction false} TurnsAppend(name: string, d: Object, a: seq<Turn>, b: seq<Turn>)
    ensures AfterTurns(name, d, a + b) == AfterTurns(name, AfterTurns(name, d, a), b)
    decreases |a|
  {
    if a == [] {
      assert a + b == b;
    } else {
      assert (a + b)[1..] == a[1..] + b;
      TurnsAppend(name, Turned(name, d, a[0]), a[1..], b);
    }
  }

  lemma {:induction false} CallsAreTurns(cfg: Config, name: string, space: Space, calls: seq<Call>, k: Key)
    requires Ns in space && k in space && k.Dep?
    requires forall call :: call in calls ==> Succeeds(space, call, k)
    ensures AfterCalls(cfg, name, space, calls)[k] == AfterTurns(name, space[k], TurnsOf(cfg, name, space, calls, k))
    decreases |calls|
  {
    if calls != [] {
      HeadOrRest(calls);
      CallIsTurn(cfg, name, space, calls[0], k);
      var next := Called(cfg, name, space, calls[0]);
      CallsAreTurns(cfg, name, next, calls[1..], k);
      TurnsAppend(name, space[k], TurnOf(cfg, name, space, calls[0], k), TurnsOf(cfg, name, next, calls[1..], k));
    }
  }

  /** A deployment that starts with r > 0 replicas has, after any sequence of successful runs, either
      none or the count `back`, and exactly `back` after an unidle: r if it was never idled while at
      0, and 1 otherwise. So the documented return to the previous state holds if and only if r is 1
      or no run idled the deployment a second time. */
  lemma ReplicasConserved(cfg: Config, name: string, space: Space, calls: seq<Call>, last: Env, k: Key)
    requires Ns in space && k in space && k.Dep? && 1 <= space[k].replicas <= MAX_INT32
    requires forall call :: call in calls ==> Succeeds(space, call, k)
    requires Succeeds(space, UnidleCall(last), k)
    ensures var back := if Reidled(name, space[k], TurnsOf(cfg, name, space, calls, k)) then 1 else space[k].replicas;
            var after := AfterCalls(cfg, name, space, calls);
            && after[k].replicas in {0, back}
            && Called(cfg, name, after, UnidleCall(last))[k].replicas == back
            && (Called(cfg, name, after, UnidleCall(last))[k].replicas == space[k].replicas <==>
                  space[k].replicas == 1 || !Reidled(name, space[k], TurnsOf(cfg, name, space, calls, k)))
  {
    var turns := TurnsOf(cfg, name, space, calls, k);
    var back := if Reidled(name, space[k], turns) then 1 else space[k].replicas;
    CallsAreTurns(cfg, name, space, calls, k);
    TurnsRemember(name, space[k], space[k].replicas, turns);
    var after := AfterCalls(cfg, name, space, calls);
    TurnRemembers(name, after[k], back, WakeTurn);
    CallIsTurn(cfg, name, after, UnidleCall(last), k);
    WakeBrings(name, after[k], back);
    assert AfterTurns(name, after[k], [WakeTurn]) == Turned(name, after[k], WakeTurn);
  }

  lemma WakeBrings(name: string, d: Object, r: int)
    requires 1 <= r <= MAX_INT32 && Remembers(d, r)
    ensures Turned(name, d, WakeTurn).replicas == r
  {
    if d.replicas == 0 {
      WakeWritten(name, d, d);
    }
  }

  /** Two idles in a row that both go through and pick the deployment: whatever it ran with, the next
      unidle brings it back as one. */
  lemma ReidledForgets(cfg: Config, name: string, space: Space, a: Call, b: Call, last: Env, d: Key,
                       once: Space, twice: Space)
    requires IdledInto(cfg, name, space, a, d, once) && IdledInto(cfg, name, once, b, d, twice)
    requires d.Dep? && 1 <= space[d].replicas <= MAX_INT32 && Succeeds(twice, UnidleCall(last), d)
    ensures d in twice && Unidled(name, twice, last)[d].replicas == 1
  {
    IdledIntoZero(cfg, name, space, a, d, once);
    IdledIntoZero(cfg, name, once, b, d, twice);
    TwiceIdledComesBack(name, twice, space[d], a, b, last, d);
  }

  lemma IdledIntoZero(cfg: Config, name: string, space: Space, call: Call, d: Key, after: Space)
    requires d.Dep? && IdledInto(cfg, name, space, call, d, after)
    ensures Ns in after && d in after && after[d] == IdledBy(name, call, space[d])
  {
    CallIdles(cfg, name, space, call, d);
  }

  lemma TwiceIdledComesBack(name: string, space: Space, o: Object, a: Call, b: Call, last: Env, d: Key)
    requires Ns in space && d in space && d.Dep? && a.IdleCall? && b.IdleCall? && 1 <= o.replicas <= MAX_INT32
    requires Succeeds(space, UnidleCall(last), d) && space[d] == IdledBy(name, b, IdledBy(name, a, o))
    ensures Unidled(name, space, last)[d].replicas == 1
  {
    UnidledDeployment(name, space, last, d);
    TwiceIdledWakesToOne(name, o, a, b);
  }

  /** What a call that goes through makes of a deployment it picks. */
  lemma CallIdles(cfg: Config, name: string, space: Space, call: Call, d: Key)
    requires Ns in space && d in space && d.Dep? && GoesThrough(cfg, name, space, call, d)
    ensures Called(cfg, name, space, call)[d] == IdledBy(name, call, space[d])
  {
    IdleRunDeployment(cfg, name, space[Ns], space, call.env, call.forceIdle, call.forceScale, d);
  }

  function IdledBy(name: string, call: Call, o: Object): Object
    requires call.IdleCall?
  {
    Written(name, Idle(call.env.now, call.forceIdle, call.forceScale), o, o)
  }

  lemma TwiceIdledWakesToOne(name: string, o: Object, a: Call, b: Call)
    requires a.IdleCall? && b.IdleCall? && o.replicas <= MAX_INT32
    ensures var twice := IdledBy(name, b, IdledBy(name, a, o));
            Has(twice.labels, Watch, "true") && Written(name, Wake, twice, twice).replicas == 1
  {
    var once := IdledBy(name, a, o);
    var twice := IdledBy(name, b, once);
    IdleWritten(name, o, o, a.env.now, a.forceIdle, a.forceScale);
    IdleWritten(name, once, once, b.env.now, b.forceIdle, b.forceScale);
    WakeReplicasOfIdled(once, b.env.now, b.forceIdle, b.forceScale);
    WakeWritten(name, twice, twice);
  }

  /** An idle that goes through and picks `d` takes the namespace from `space` to `after`. */
  ghost predicate IdledInto(cfg: Config, name: string, space: Space, call: Call, d: Key, after: Space) {
    && Ns in space && d in space
    && GoesThrough(cfg, name, space, call, d)
    && after == Called(cfg, name, space, call)
  }

  ghost predicate GoesThrough(cfg: Config, name: string, space: Space, call: Call, d: Key)
    requires Ns in space && d in space
  {
    && call.IdleCall?
    && Succeeds(space, call, d)
    && Idles(cfg, name, space[Ns], space, call.env, call.forceIdle, call.forceScale)
    && MatchesAll(cfg.deployments, space[d].labels)
  }

  /** Force-idling a namespace without ingresses goes through every time. */
  lemma ForcedTwiceForgets(cfg: Config, name: string, space: Space, env: Env, d: Key)
    requires WellFormed(space, env) && d in space && d.Dep? && 1 <= space[d].replicas <= MAX_INT32
    requires forall k :: k in space ==> !k.Ing?
    requires env.listsDeployments && env.listsIngresses && env.faults == {}
    requires !cfg.dryRun && cfg.deployments == [] && cfg.skipBuildCheck
    ensures var idle := IdleCall(env, true, false);
            var twice := Called(cfg, name, Called(cfg, name, space, idle), idle);
            Unidled(name, twice, env)[d].replicas == 1
  {
    var idle := IdleCall(env, true, false);
    var once := Called(cfg, name, space, idle);
    ForcedIdle(cfg, name, space, env, d);
    ForcedIdle(cfg, name, once, env, d);
    ReidledForgets(cfg, name, space, idle, idle, env, d, once, Called(cfg, name, once, idle));
  }

  /** Without ingresses, a forced idle always goes through. */
  lemma ForcedIdle(cfg: Config, name: string, space: Space, env: Env, d: Key)
    requires WellFormed(space, env) && d in space && d.Dep? && forall k :: k in space ==> !k.Ing?
    requires env.listsDeployments && env.listsIngresses && d !in env.faults
    requires !cfg.dryRun && cfg.deployments == [] && cfg.skipBuildCheck
    ensures GoesThrough(cfg, name, space, IdleCall(env, true, false), d)
  {
    NoneSelected(space, env.order, Ingresses(cfg.ingress));
  }

  lemma {:induction false} NoneSelected(space: Space, order: seq<Key>, f: Filter)
    requires forall k :: k in space ==> !f.Selects(k, space[k])
    ensures Select(space, order, f) == []
  {
    if order != [] {
      NoneSelected(space, order[1..], f);
    }
  }
}
