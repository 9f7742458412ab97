/** The steps of Protocol add up to the methods: whatever one call of Unidle, KubernetesServiceIdler,
    the request handler or Reconcile does to a namespace and its lock, failures included, is what its
    threads do when nothing comes between. So the invariants of runs hold for the methods too. */
module Sequential {
  import opened Options
  import opened Clusters
  import opened Patches
  import opened Idlers
  import opened Unidlers
  import opened Reconcilers
  import opened Protocol

  /** The three loops that go on after a failed patch. */
  datatype Loop = ScaleLoop(fromHandler: bool) | StripLoop(fromHandler: bool)
    | IdleLoop(now: string, forceIdle: bool, forceScale: bool)
  {
    function At(view: Space, todo: seq<Key>): Thread {
      match this
      case ScaleLoop(h) => UnidleThread(Scaling(view, todo), h)
      case StripLoop(h) => UnidleThread(Stripping(view, todo), h)
      case IdleLoop(now, fi, fs) => IdleThread(Idling(view, todo), now, fi, fs)
    }

    function Body(): Op {
      match this
      case ScaleLoop(_) => Wake
      case StripLoop(_) => Strip
      case IdleLoop(now, fi, fs) => Idle(now, fi, fs)
    }
  }

  /** A call that needs no answer from a List. */
  function Outcome(ok: bool): Choice {
    Choice(map[], [], ok, true)
  }

  /** A List answered from the present. */
  function Fresh(s: System, env: Env, ok: bool): Choice {
    Choice(s.objs, env.order, ok, true)
  }

  /** Nothing but moves of one thread. */
  ghost predicate Own(events: seq<Event>, tid: nat) {
    forall i :: 0 <= i < |events| ==> events[i].Move? && events[i].tid == tid
  }

  ghost predicate EndsIn(cfg: Config, name: string, s: System, events: seq<Event>, objs: Space, threads: seq<Thread>,
                         locked: bool) {
    && ValidRun(cfg, name, s, events)
    && var s' := Run(cfg, name, s, events);
       Sound(s') && s.seen <= s'.seen && s'.objs == objs && s'.threads == threads && s'.locked == locked
  }

  /** Moves of thread `tid` alone take it to `t` and the namespace to `objs`, and change nothing else. */
  ghost predicate LeadsTo(cfg: Config, name: string, s: System, events: seq<Event>, objs: Space, tid: nat, t: Thread) {
    tid < |s.threads| && Own(events, tid) && EndsIn(cfg, name, s, events, objs, s.threads[tid := t], s.locked)
  }

  lemma Append(cfg: Config, name: string, s: System, a: seq<Event>, b: seq<Event>,
               objs: Space, threads: seq<Thread>, locked: bool)
    requires ValidRun(cfg, name, s, a) && s.seen <= Run(cfg, name, s, a).seen
    requires EndsIn(cfg, name, Run(cfg, name, s, a), b, objs, threads, locked)
    ensures EndsIn(cfg, name, s, a + b, objs, threads, locked)
  {
    RunConcat(cfg, name, s, a, b);
  }

  lemma Compose(cfg: Config, name: string, s: System, a: seq<Event>, objs: Space, tid: nat, t: Thread,
                b: seq<Event>, objs': Space, t': Thread)
    requires LeadsTo(cfg, name, s, a, objs, tid, t)
    requires LeadsTo(cfg, name, Run(cfg, name, s, a), b, objs', tid, t')
    ensures LeadsTo(cfg, name, s, a + b, objs', tid, t')
  {
    Append(cfg, name, s, a, b, objs', s.threads[tid := t'], s.locked);
  }

  lemma OneEvent(cfg: Config, name: string, s: System, e: Event)
    requires Sound(s) && Enabled(s, e)
    ensures var s' := Next(cfg, name, s, e);
            EndsIn(cfg, name, s, [e], s'.objs, s'.threads, s'.locked)
  {
    NextSound(cfg, name, s, e);
    RunOne(cfg, name, s, e);
  }

  lemma OneMove(cfg: Config, name: string, s: System, tid: nat, c: Choice)
    requires Sound(s) && Enabled(s, Move(tid, c))
    requires Spawned(s.threads[tid]) == [] && Relock(s.threads[tid], s.locked) == s.locked
    ensures LeadsTo(cfg, name, s, [Move(tid, c)], MoveObjs(name, s, tid, c), tid,
                    Advance(cfg, s.threads[tid], s.locked, c))
  {
    OneEvent(cfg, name, s, Move(tid, c));
  }

  /** The first round of a loop, then the rest of it. */
  lemma PatchedHead(name: string, space: Space, view: Space, todo: seq<Key>, op: Op, faults: set<Key>)
    requires todo != [] && todo[0] in space && todo[0] in view && todo[0] !in todo[1..]
    ensures var k := todo[0];
            Patched(name, space, view, todo, op, faults) ==
              Patched(name, if k in faults then space else space[k := Written(name, op, view[k], space[k])],
                      view, todo[1..], op, faults)
  {
    HeadOrRest(todo);
  }

  lemma {:induction false} LoopRun(cfg: Config, name: string, s: System, tid: nat, loop: Loop, view: Space,
                                   todo: seq<Key>, faults: set<Key>) returns (events: seq<Event>)
    requires Sound(s) && tid < |s.threads| && s.threads[tid] == loop.At(view, todo)
    requires Loopable(s.objs, view, todo)
    ensures LeadsTo(cfg, name, s, events, Patched(name, s.objs, view, todo, loop.Body(), faults), tid,
                    loop.At(view, []))
    decreases |todo|
  {
    if todo == [] {
      events := [];
      assert Patched(name, s.objs, view, [], loop.Body(), faults) == s.objs;
      assert s.threads[tid := loop.At(view, [])] == s.threads;
    } else {
      var first := LoopOne(cfg, name, s, tid, loop, view, todo, faults);
      LoopableRest(s.objs, view, todo);
      var s1 := Run(cfg, name, s, first);
      var rest := LoopRun(cfg, name, s1, tid, loop, view, todo[1..], faults);
      Compose(cfg, name, s, first, s1.objs, tid, loop.At(view, todo[1..]),
              rest, Patched(name, s.objs, view, todo, loop.Body(), faults), loop.At(view, []));
      events := first + rest;
    }
  }

  /** One round of a loop. */
  lemma LoopOne(cfg: Config, name: string, s: System, tid: nat, loop: Loop, view: Space, todo: seq<Key>,
                faults: set<Key>) returns (events: seq<Event>)
    requires Sound(s) && tid < |s.threads| && todo != [] && s.threads[tid] == loop.At(view, todo)
    requires Loopable(s.objs, view, todo)
    ensures |events| == 1 && ValidRun(cfg, name, s, events)
    ensures var s1 := Run(cfg, name, s, events);
            && LeadsTo(cfg, name, s, events, s1.objs, tid, loop.At(view, todo[1..]))
            && s1.objs.Keys == s.objs.Keys
            && Patched(name, s.objs, view, todo, loop.Body(), faults)
               == Patched(name, s1.objs, view, todo[1..], loop.Body(), faults)
  {
    var c := Outcome(todo[0] !in faults);
    HeadOrRest(todo);
    LoopableRest(s.objs, view, todo);
    LoopMove(cfg, name, s, tid, loop, view, todo, c);
    OneMove(cfg, name, s, tid, c);
    PatchedHead(name, s.objs, view, todo, loop.Body(), faults);
    events := [Move(tid, c)];
  }

  /** What the move of such a round does. */
  lemma LoopMove(cfg: Config, name: string, s: System, tid: nat, loop: Loop, view: Space, todo: seq<Key>, c: Choice)
    requires tid < |s.threads| && s.threads[tid] == loop.At(view, todo)
    requires todo != [] && todo[0] in view && todo[0] in s.objs
    ensures var k := todo[0];
            MoveObjs(name, s, tid, c) ==
              if c.ok then s.objs[k := Written(name, loop.Body(), view[k], s.objs[k])] else s.objs
    ensures Advance(cfg, s.threads[tid], s.locked, c) == loop.At(view, todo[1..])
  {
  }

  lemma LoopableRest(objs: Space, view: Space, todo: seq<Key>)
    requires todo != [] && Loopable(objs, view, todo)
    ensures todo[0] !in todo[1..]
    ensures forall objs': Space :: objs'.Keys == objs.Keys ==> Loopable(objs', view, todo[1..])
  {
    HeadOrRest(todo);
    assert forall i :: 0 <= i < |todo[1..]| ==> todo[1..][i] == todo[i + 1];
  }

  // ---------------------------------------------------------------- Unidle

  /** Up to the point where only the lock is left, with Lists that show `view` and `ings`, in versions that
      may be out of date. */
  lemma UnidleWorkIsRun(cfg: Config, name: string, s: System, tid: nat, h: bool, view: Space, ings: Space, env: Env)
    returns (events: seq<Event>)
    requires Sound(s) && tid < |s.threads| && s.threads[tid] == UnidleThread(UnidleLists, h)
    requires WellFormed(s.objs, env) && Answers(view, s.objs, s.seen) && Answers(ings, s.objs, s.seen)
    ensures LeadsTo(cfg, name, s, events, UnidledFrom(name, s.objs, view, ings, env), tid, UnidleThread(Unlocking, h))
  {
    var c := Choice(view, env.order, env.listsDeployments, true);
    OneMove(cfg, name, s, tid, c);
    events := [Move(tid, c)];
    if env.listsDeployments {
      var scale := ScaleIsRun(cfg, name, Run(cfg, name, s, events), tid, h, view, env);
      var woken := WokenFrom(name, s.objs, view, env);
      Compose(cfg, name, s, events, s.objs, tid, UnidleThread(Scaling(view, Select(view, env.order, Watched)), h),
              scale, woken, UnidleThread(UnidleListsIngresses, h));
      events := events + scale;
      var rest := StripAndUnmark(cfg, name, Run(cfg, name, s, events), tid, h, ings, env);
      Compose(cfg, name, s, events, woken, tid, UnidleThread(UnidleListsIngresses, h),
              rest, UnidledFrom(name, s.objs, view, ings, env), UnidleThread(Unlocking, h));
      events := events + rest;
    }
  }

  /** From the second List on. */
  lemma StripAndUnmark(cfg: Config, name: string, s: System, tid: nat, h: bool, ings: Space, env: Env)
    returns (events: seq<Event>)
    requires Sound(s) && tid < |s.threads| && s.threads[tid] == UnidleThread(UnidleListsIngresses, h)
    requires WellFormed(s.objs, env) && Answers(ings, s.objs, s.seen)
    ensures var stripped := StrippedFrom(name, s.objs, ings, env);
            LeadsTo(cfg, name, s, events, Patched(name, stripped, stripped, [Ns], Mark("false"), env.faults),
                    tid, UnidleThread(Unlocking, h))
  {
    events := StripIsRun(cfg, name, s, tid, h, ings, env);
    var s1 := Run(cfg, name, s, events);
    var mark := UnmarkIsRun(cfg, name, s1, tid, h, env);
    Compose(cfg, name, s, events, s1.objs, tid, UnidleThread(Unmarking, h),
            mark, Patched(name, s1.objs, s1.objs, [Ns], Mark("false"), env.faults), UnidleThread(Unlocking, h));
    events := events + mark;
  }

  lemma ScaleIsRun(cfg: Config, name: string, s: System, tid: nat, h: bool, view: Space, env: Env)
    returns (events: seq<Event>)
    requires Sound(s) && tid < |s.threads| && view.Keys == s.objs.Keys && NoDuplicates(env.order)
    requires s.threads[tid] == UnidleThread(Scaling(view, Select(view, env.order, Watched)), h)
    ensures LeadsTo(cfg, name, s, events,
                    Patched(name, s.objs, view, Select(view, env.order, Watched), Wake, env.faults),
                    tid, UnidleThread(UnidleListsIngresses, h))
  {
    var todo := Select(view, env.order, Watched);
    SelectLoopable(view, env.order, Watched);
    events := LoopRun(cfg, name, s, tid, ScaleLoop(h), view, todo, env.faults);
    var woken := Patched(name, s.objs, view, todo, Wake, env.faults);
    OneMove(cfg, name, Run(cfg, name, s, events), tid, Outcome(true));
    Compose(cfg, name, s, events, woken, tid, UnidleThread(Scaling(view, []), h),
            [Move(tid, Outcome(true))], woken, UnidleThread(UnidleListsIngresses, h));
    events := events + [Move(tid, Outcome(true))];
  }

  /** A whole Unidle, its deferred delete of the lock included. */
  lemma UnidleIsRun(cfg: Config, name: string, s: System, tid: nat, h: bool, env: Env)
    returns (events: seq<Event>)
    requires Sound(s) && tid < |s.threads| && s.threads[tid] == UnidleThread(UnidleLists, h)
    requires WellFormed(s.objs, env)
    ensures Own(events, tid)
    ensures EndsIn(cfg, name, s, events, Unidled(name, s.objs, env), s.threads[tid := UnidleThread(UnidleDone, h)],
                   false)
  {
    events := PresentUnidleWork(cfg, name, s, tid, h, env);
    var s1 := Run(cfg, name, s, events);
    var done := s.threads[tid := UnidleThread(UnidleDone, h)];
    DeleteIsRun(cfg, name, s1, tid, h);
    assert s1.threads[tid := UnidleThread(UnidleDone, h)] == done;
    Append(cfg, name, s, events, [Move(tid, Outcome(true))], s1.objs, done, false);
    events := events + [Move(tid, Outcome(true))];
  }

  lemma DeleteIsRun(cfg: Config, name: string, s: System, tid: nat, h: bool)
    requires Sound(s) && tid < |s.threads| && s.threads[tid] == UnidleThread(Unlocking, h)
    ensures EndsIn(cfg, name, s, [Move(tid, Outcome(true))], s.objs, s.threads[tid := UnidleThread(UnidleDone, h)],
                   false)
  {
    OneEvent(cfg, name, s, Move(tid, Outcome(true)));
  }

  /** The same work when each List is answered from the present. */
  lemma PresentUnidleWork(cfg: Config, name: string, s: System, tid: nat, h: bool, env: Env)
    returns (events: seq<Event>)
    requires Sound(s) && tid < |s.threads| && s.threads[tid] == UnidleThread(UnidleLists, h)
    requires WellFormed(s.objs, env)
    ensures LeadsTo(cfg, name, s, events, Unidled(name, s.objs, env), tid, UnidleThread(Unlocking, h))
  {
    var c := Fresh(s, env, env.listsDeployments);
    OneMove(cfg, name, s, tid, c);
    events := [Move(tid, c)];
    if env.listsDeployments {
      var scale := ScaleIsRun(cfg, name, Run(cfg, name, s, events), tid, h, s.objs, env);
      var woken := WokenFrom(name, s.objs, s.objs, env);
      Compose(cfg, name, s, events, s.objs, tid, UnidleThread(Scaling(s.objs, Select(s.objs, env.order, Watched)), h),
              scale, woken, UnidleThread(UnidleListsIngresses, h));
      events := events + scale;
      var rest := StripAndUnmark(cfg, name, Run(cfg, name, s, events), tid, h, woken, env);
      Compose(cfg, name, s, events, woken, tid, UnidleThread(UnidleListsIngresses, h),
              rest, Unidled(name, s.objs, env), UnidleThread(Unlocking, h));
      events := events + rest;
    }
  }

  lemma StripIsRun(cfg: Config, name: string, s: System, tid: nat, h: bool, ings: Space, env: Env)
    returns (events: seq<Event>)
    requires Sound(s) && tid < |s.threads| && s.threads[tid] == UnidleThread(UnidleListsIngresses, h)
    requires WellFormed(s.objs, env) && Answers(ings, s.objs, s.seen)
    ensures LeadsTo(cfg, name, s, events, StrippedFrom(name, s.objs, ings, env), tid, UnidleThread(Unmarking, h))
  {
    var c := Choice(ings, env.order, env.listsIngresses, true);
    OneMove(cfg, name, s, tid, c);
    events := [Move(tid, c)];
    if env.listsIngresses {
      var todo := Select(ings, env.order, AllIngresses);
      var strip := StrippingIsRun(cfg, name, Run(cfg, name, s, events), tid, h, ings, env);
      Compose(cfg, name, s, events, s.objs, tid, UnidleThread(Stripping(ings, todo), h),
              strip, StrippedFrom(name, s.objs, ings, env), UnidleThread(Unmarking, h));
      events := events + strip;
    }
  }

  lemma StrippingIsRun(cfg: Config, name: string, s: System, tid: nat, h: bool, view: Space, env: Env)
    returns (events: seq<Event>)
    requires Sound(s) && tid < |s.threads| && view.Keys == s.objs.Keys && NoDuplicates(env.order)
    requires s.threads[tid] == UnidleThread(Stripping(view, Select(view, env.order, AllIngresses)), h)
    ensures LeadsTo(cfg, name, s, events,
                    Patched(name, s.objs, view, Select(view, env.order, AllIngresses), Strip, env.faults),
                    tid, UnidleThread(Unmarking, h))
  {
    var todo := Select(view, env.order, AllIngresses);
    SelectLoopable(view, env.order, AllIngresses);
    events := LoopRun(cfg, name, s, tid, StripLoop(h), view, todo, env.faults);
    var stripped := Patched(name, s.objs, view, todo, Strip, env.faults);
    OneMove(cfg, name, Run(cfg, name, s, events), tid, Outcome(true));
    Compose(cfg, name, s, events, stripped, tid, UnidleThread(Stripping(view, []), h),
            [Move(tid, Outcome(true))], stripped, UnidleThread(Unmarking, h));
    events := events + [Move(tid, Outcome(true))];
  }

  lemma UnmarkIsRun(cfg: Config, name: string, s: System, tid: nat, h: bool, env: Env)
    returns (events: seq<Event>)
    requires Sound(s) && tid < |s.threads| && s.threads[tid] == UnidleThread(Unmarking, h)
    ensures LeadsTo(cfg, name, s, events, Patched(name, s.objs, s.objs, [Ns], Mark("false"), env.faults), tid,
                    UnidleThread(Unlocking, h))
  {
    var c := Outcome(Ns !in env.faults);
    OneMove(cfg, name, s, tid, c);
    events := [Move(tid, c)];
    assert Patched(name, s.objs, s.objs, [Ns], Mark("false"), env.faults) == MoveObjs(name, s, tid, c);
  }

  // ---------------------------------------------------------------- KubernetesServiceIdler

  /** A whole run, the checks included, when its Lists show `view` and `ings`. */
  lemma StaleIdleIsRun(cfg: Config, name: string, meta: Object, s: System, tid: nat, view: Space, ings: Space, env: Env,
                       fi: bool, fs: bool)
    returns (events: seq<Event>)
    requires Sound(s) && tid < |s.threads| && s.threads[tid] == IdleThread(IdleLists, env.now, fi, fs)
    requires WellFormed(s.objs, env) && Answers(view, s.objs, s.seen) && Answers(ings, s.objs, s.seen)
    ensures LeadsTo(cfg, name, s, events, IdleRunFrom(cfg, name, meta, s.objs, view, ings, env, fi, fs), tid,
                    IdleThread(IdleDone, env.now, fi, fs))
  {
    var go := ShouldIdle(cfg, meta, view, env, fi, fs);
    events := ChecksAreRun(cfg, name, s, tid, view, env, fi, fs, go);
    if go && !cfg.dryRun {
      var s1 := Run(cfg, name, s, events);
      var rest := IdleWorkIsRun(cfg, name, s1, tid, view, ings, env, fi, fs);
      Compose(cfg, name, s, events, s.objs, tid, s1.threads[tid], rest,
              IdleRunFrom(cfg, name, meta, s.objs, view, ings, env, fi, fs), IdleThread(IdleDone, env.now, fi, fs));
      events := events + rest;
    }
  }

  /** The List of deployments and the checks, with their outcome. */
  lemma ChecksAreRun(cfg: Config, name: string, s: System, tid: nat, view: Space, env: Env, fi: bool, fs: bool,
                     go: bool)
    returns (events: seq<Event>)
    requires Sound(s) && tid < |s.threads| && s.threads[tid] == IdleThread(IdleLists, env.now, fi, fs)
    requires WellFormed(s.objs, env) && Answers(view, s.objs, s.seen)
    ensures var deps := DeploymentsOf(cfg, view, env);
            LeadsTo(cfg, name, s, events, s.objs, tid,
                    IdleThread(if !go || cfg.dryRun then IdleDone
                               else if cfg.skipIngressPatch then Idling(view, deps)
                               else IdleListsIngresses(view, deps), env.now, fi, fs))
  {
    var c := Choice(view, env.order, go, go);
    OneMove(cfg, name, s, tid, c);
    events := [Move(tid, c)];
  }

  /** What follows the checks when they call for idling. */
  lemma IdleWorkIsRun(cfg: Config, name: string, s: System, tid: nat, view: Space, ings: Space, env: Env,
                      fi: bool, fs: bool)
    returns (events: seq<Event>)
    requires Sound(s) && tid < |s.threads| && WellFormed(s.objs, env) && !cfg.dryRun
    requires Answers(view, s.objs, s.seen) && Answers(ings, s.objs, s.seen)
    requires var deps := DeploymentsOf(cfg, view, env);
             s.threads[tid] == IdleThread(if cfg.skipIngressPatch then Idling(view, deps)
                                          else IdleListsIngresses(view, deps), env.now, fi, fs)
    ensures var (annotated, ok) := AnnotatedFrom(cfg, name, s.objs, ings, env);
            LeadsTo(cfg, name, s, events,
                    if ok then Patched(name, annotated, view, DeploymentsOf(cfg, view, env), Idle(env.now, fi, fs),
                                       env.faults)
                    else annotated,
                    tid, IdleThread(IdleDone, env.now, fi, fs))
  {
    var deps := DeploymentsOf(cfg, view, env);
    var (annotated, ok) := AnnotatedFrom(cfg, name, s.objs, ings, env);
    events := IngressIsRun(cfg, name, s, tid, ings, env, fi, fs, view, deps);
    if ok {
      var idle := IdlingIsRun(cfg, name, Run(cfg, name, s, events), tid, env, fi, fs, view, deps);
      Compose(cfg, name, s, events, annotated, tid, IdleThread(Idling(view, deps), env.now, fi, fs),
              idle, Patched(name, annotated, view, deps, Idle(env.now, fi, fs), env.faults),
              IdleThread(IdleDone, env.now, fi, fs));
      events := events + idle;
    }
  }

  /** The same when each List is answered from the present. */
  lemma IdleIsRun(cfg: Config, name: string, meta: Object, s: System, tid: nat, env: Env, fi: bool, fs: bool)
    returns (events: seq<Event>)
    requires Sound(s) && tid < |s.threads| && s.threads[tid] == IdleThread(IdleLists, env.now, fi, fs)
    requires WellFormed(s.objs, env)
    ensures LeadsTo(cfg, name, s, events, IdleRun(cfg, name, meta, s.objs, env, fi, fs), tid,
                    IdleThread(IdleDone, env.now, fi, fs))
  {
    events := StaleIdleIsRun(cfg, name, meta, s, tid, s.objs, s.objs, env, fi, fs);
  }

  lemma IdlingIsRun(cfg: Config, name: string, s: System, tid: nat, env: Env, fi: bool, fs: bool, view: Space,
                    deps: seq<Key>)
    returns (events: seq<Event>)
    requires Sound(s) && tid < |s.threads| && s.threads[tid] == IdleThread(Idling(view, deps), env.now, fi, fs)
    requires view.Keys == s.objs.Keys && deps == DeploymentsOf(cfg, view, env) && NoDuplicates(env.order)
    ensures LeadsTo(cfg, name, s, events, Patched(name, s.objs, view, deps, Idle(env.now, fi, fs), env.faults),
                    tid, IdleThread(IdleDone, env.now, fi, fs))
  {
    SelectLoopable(view, env.order, Deployments(cfg.deployments));
    events := LoopRun(cfg, name, s, tid, IdleLoop(env.now, fi, fs), view, deps, env.faults);
    var idled := Patched(name, s.objs, view, deps, Idle(env.now, fi, fs), env.faults);
    var s1 := Run(cfg, name, s, events);
    OneMove(cfg, name, s1, tid, Outcome(true));
    Compose(cfg, name, s, events, idled, tid, IdleThread(Idling(view, []), env.now, fi, fs),
            [Move(tid, Outcome(true))], idled, IdleThread(IdleDone, env.now, fi, fs));
    events := events + [Move(tid, Outcome(true))];
  }

  /** patchIngress: on success the thread goes on to the deployments, otherwise it ends. */
  lemma IngressIsRun(cfg: Config, name: string, s: System, tid: nat, ings: Space, env: Env, fi: bool, fs: bool,
                     view: Space, deps: seq<Key>) returns (events: seq<Event>)
    requires Sound(s) && tid < |s.threads| && WellFormed(s.objs, env) && !cfg.dryRun && Answers(ings, s.objs, s.seen)
    requires s.threads[tid] == IdleThread(if cfg.skipIngressPatch then Idling(view, deps)
                                          else IdleListsIngresses(view, deps), env.now, fi, fs)
    ensures var (annotated, ok) := AnnotatedFrom(cfg, name, s.objs, ings, env);
            LeadsTo(cfg, name, s, events, annotated, tid,
                    IdleThread(if ok then Idling(view, deps) else IdleDone, env.now, fi, fs))
  {
    if cfg.skipIngressPatch {
      events := [];
      assert s.threads[tid := s.threads[tid]] == s.threads;
      return;
    }
    var c := Choice(ings, env.order, env.listsIngresses, true);
    OneMove(cfg, name, s, tid, c);
    events := [Move(tid, c)];
    if env.listsIngresses {
      var keys := IngressesOf(cfg, ings, env);
      SelectLoopable(ings, env.order, Ingresses(cfg.ingress));
      var (annotated, ok) := AnnotatedFrom(cfg, name, s.objs, ings, env);
      var loop := AnnotatingIsRun(cfg, name, Run(cfg, name, s, events), tid, env, fi, fs, ings, keys, false, view,
                                  deps);
      AnnotatedByLoop(cfg, name, s.objs, ings, env);
      Compose(cfg, name, s, events, s.objs, tid,
              IdleThread(Annotating(ings, keys, false, view, deps), env.now, fi, fs),
              loop, annotated, IdleThread(if ok then Idling(view, deps) else IdleDone, env.now, fi, fs));
      events := events + loop;
    }
  }

  /** The rest of patchIngress from some point of its loop, as a function of what is left to do. */
  function RestOfIngress(name: string, objs: Space, ingView: Space, todo: seq<Key>, patched: bool,
                         faults: set<Key>): (Space, bool) {
    var n := FirstFault(todo, faults);
    var annotated := Patched(name, objs, ingView, todo[..n], Annotate, {});
    if n < |todo| then (annotated, false)
    else if !patched && todo == [] then (annotated, true)
    else (Patched(name, annotated, annotated, [Ns], Mark("true"), faults), Ns !in faults)
  }

  lemma AnnotatedByLoop(cfg: Config, name: string, space: Space, ings: Space, env: Env)
    requires env.listsIngresses && !cfg.skipIngressPatch && !cfg.dryRun
    ensures AnnotatedFrom(cfg, name, space, ings, env)
            == RestOfIngress(name, space, ings, IngressesOf(cfg, ings, env), false, env.faults)
  {
  }

  lemma RestStep(name: string, objs: Space, ingView: Space, todo: seq<Key>, patched: bool, faults: set<Key>)
    requires todo != [] && todo[0] in objs && todo[0] in ingView && todo[0] !in todo[1..]
    ensures RestOfIngress(name, objs, ingView, todo, patched, faults) ==
              if todo[0] in faults then (objs, false)
              else RestOfIngress(name, objs[todo[0] := Written(name, Annotate, ingView[todo[0]], objs[todo[0]])],
                                 ingView, todo[1..], true, faults)
  {
    var n := FirstFault(todo, faults);
    if n == 0 {
      assert Patched(name, objs, ingView, todo[..0], Annotate, {}) == objs;
    } else {
      assert todo[..n][1..] == todo[1..][..n - 1];
      PrefixMember(todo[1..], n - 1);
      PatchedHead(name, objs, ingView, todo[..n], Annotate, {});
    }
  }

  lemma NothingLeftToAnnotate(name: string, objs: Space, ingView: Space, patched: bool, faults: set<Key>)
    ensures RestOfIngress(name, objs, ingView, [], patched, faults) ==
              if patched then (Patched(name, objs, objs, [Ns], Mark("true"), faults), Ns !in faults) else (objs, true)
  {
    assert Patched(name, objs, ingView, [], Annotate, {}) == objs;
  }

  lemma {:induction false} AnnotatingIsRun(cfg: Config, name: string, s: System, tid: nat, env: Env, fi: bool, fs: bool,
                                           ingView: Space, todo: seq<Key>, patched: bool, view: Space, deps: seq<Key>)
    returns (events: seq<Event>)
    requires Sound(s) && tid < |s.threads| && Loopable(s.objs, ingView, todo)
    requires s.threads[tid] == IdleThread(Annotating(ingView, todo, patched, view, deps), env.now, fi, fs)
    ensures var (annotated, ok) := RestOfIngress(name, s.objs, ingView, todo, patched, env.faults);
            LeadsTo(cfg, name, s, events, annotated, tid,
                    IdleThread(if ok then Idling(view, deps) else IdleDone, env.now, fi, fs))
    decreases |todo|
  {
    if todo == [] {
      NothingLeftToAnnotate(name, s.objs, ingView, patched, env.faults);
      events := AnnotatedIsRun(cfg, name, s, tid, env, fi, fs, ingView, patched, view, deps);
    } else {
      var (annotated, ok) := RestOfIngress(name, s.objs, ingView, todo, patched, env.faults);
      LoopableRest(s.objs, ingView, todo);
      events := AnnotatesOne(cfg, name, s, tid, env, fi, fs, ingView, todo, patched, view, deps);
      if todo[0] !in env.faults {
        var s1 := Run(cfg, name, s, events);
        var rest := AnnotatingIsRun(cfg, name, s1, tid, env, fi, fs, ingView, todo[1..], true, view, deps);
        Compose(cfg, name, s, events, s1.objs, tid, s1.threads[tid], rest, annotated,
                IdleThread(if ok then Idling(view, deps) else IdleDone, env.now, fi, fs));
        events := events + rest;
      }
    }
  }

  /** One round of the loop: the thread goes on with the rest, or ends when the patch fails. */
  lemma AnnotatesOne(cfg: Config, name: string, s: System, tid: nat, env: Env, fi: bool, fs: bool,
                     ingView: Space, todo: seq<Key>, patched: bool, view: Space, deps: seq<Key>)
    returns (events: seq<Event>)
    requires Sound(s) && tid < |s.threads| && todo != [] && Loopable(s.objs, ingView, todo)
    requires s.threads[tid] == IdleThread(Annotating(ingView, todo, patched, view, deps), env.now, fi, fs)
    ensures |events| == 1 && ValidRun(cfg, name, s, events)
    ensures var s1 := Run(cfg, name, s, events);
            var failed := todo[0] in env.faults;
            && LeadsTo(cfg, name, s, events, s1.objs, tid,
                       IdleThread(if failed then IdleDone
                                  else Annotating(ingView, todo[1..], true, view, deps), env.now, fi, fs))
            && s1.objs.Keys == s.objs.Keys
            && RestOfIngress(name, s.objs, ingView, todo, patched, env.faults) ==
                 if failed then (s1.objs, false) else RestOfIngress(name, s1.objs, ingView, todo[1..], true, env.faults)
  {
    LoopableRest(s.objs, ingView, todo);
    HeadOrRest(todo);
    RestStep(name, s.objs, ingView, todo, patched, env.faults);
    var c := Outcome(todo[0] !in env.faults);
    AnnotateMove(cfg, name, s, tid, s.threads[tid].ipc, c);
    OneMove(cfg, name, s, tid, c);
    events := [Move(tid, c)];
  }

  lemma AnnotateMove(cfg: Config, name: string, s: System, tid: nat, pc: IdlePc, c: Choice)
    requires tid < |s.threads| && s.threads[tid].IdleThread? && s.threads[tid].ipc == pc && pc.Annotating?
    requires pc.todo != [] && pc.todo[0] in pc.ingresses && pc.todo[0] in s.objs
    ensures var k := pc.todo[0];
            MoveObjs(name, s, tid, c) ==
              if c.ok then s.objs[k := Written(name, Annotate, pc.ingresses[k], s.objs[k])] else s.objs
    ensures AdvanceIdle(cfg, pc, c) ==
              if c.ok then Annotating(pc.ingresses, pc.todo[1..], true, pc.view, pc.deps) else IdleDone
  {
  }

  /** The end of the loop. */
  lemma AnnotatedIsRun(cfg: Config, name: string, s: System, tid: nat, env: Env, fi: bool, fs: bool,
                       ingView: Space, patched: bool, view: Space, deps: seq<Key>)
    returns (events: seq<Event>)
    requires Sound(s) && tid < |s.threads|
    requires s.threads[tid] == IdleThread(Annotating(ingView, [], patched, view, deps), env.now, fi, fs)
    ensures LeadsTo(cfg, name, s, events,
                    if patched then Patched(name, s.objs, s.objs, [Ns], Mark("true"), env.faults) else s.objs, tid,
                    IdleThread(if patched && Ns in env.faults then IdleDone else Idling(view, deps), env.now, fi, fs))
  {
    OneMove(cfg, name, s, tid, Outcome(true));
    events := [Move(tid, Outcome(true))];
    if patched {
      var mark := MarkIsRun(cfg, name, Run(cfg, name, s, events), tid, env, fi, fs, view, deps);
      Compose(cfg, name, s, events, s.objs, tid, IdleThread(Marking(view, deps), env.now, fi, fs),
              mark, Patched(name, s.objs, s.objs, [Ns], Mark("true"), env.faults),
              IdleThread(if Ns in env.faults then IdleDone else Idling(view, deps), env.now, fi, fs));
      events := events + mark;
    }
  }

  lemma MarkIsRun(cfg: Config, name: string, s: System, tid: nat, env: Env, fi: bool, fs: bool,
                  view: Space, deps: seq<Key>) returns (events: seq<Event>)
    requires Sound(s) && tid < |s.threads| && s.threads[tid] == IdleThread(Marking(view, deps), env.now, fi, fs)
    ensures LeadsTo(cfg, name, s, events, Patched(name, s.objs, s.objs, [Ns], Mark("true"), env.faults), tid,
                    IdleThread(if Ns !in env.faults then Idling(view, deps) else IdleDone, env.now, fi, fs))
  {
    var c := Outcome(Ns !in env.faults);
    OneMove(cfg, name, s, tid, c);
    events := [Move(tid, c)];
    assert Patched(name, s.objs, s.objs, [Ns], Mark("true"), env.faults) == MoveObjs(name, s, tid, c);
  }

  // ---------------------------------------------------------------- the handler

  /** An admissible and verified request whose steps nothing interrupts: it starts a run of Unidle, and
      takes the lock, exactly when the handler does on the versions `view` that its List shows. */
  lemma HandlerIsRun(cfg: Config, name: string, s: System, tid: nat, view: Space, env: Env)
    returns (events: seq<Event>)
    requires Sound(s) && tid < |s.threads| && s.threads[tid] == RequestThread(Checking)
    requires Answers(view, s.objs, s.seen) && WellFormed(view, env)
    ensures Own(events, tid)
    ensures var starts := MayStart(view, env, s.locked);
            EndsIn(cfg, name, s, events, s.objs,
                   s.threads[tid := RequestThread(Answered)]
                   + (if starts then [UnidleThread(UnidleLists, true)] else []),
                   s.locked || starts)
  {
    var c := Choice(view, env.order, env.listsDeployments, true);
    ScaledListed(view, env.order);
    OneMove(cfg, name, s, tid, c);
    events := [Move(tid, c)];
    if !(env.listsDeployments && ForceScaledSeen(view)) {
      var last := LoadAndGo(cfg, name, Run(cfg, name, s, events), tid);
      assert s.threads[tid := RequestThread(Loading)][tid := RequestThread(Answered)]
          == s.threads[tid := RequestThread(Answered)];
      Append(cfg, name, s, events, last, s.objs,
             s.threads[tid := RequestThread(Answered)]
             + (if s.locked then [] else [UnidleThread(UnidleLists, true)]), true);
      events := events + last;
    }
  }

  /** From Load on. */
  lemma LoadAndGo(cfg: Config, name: string, s: System, tid: nat) returns (events: seq<Event>)
    requires Sound(s) && tid < |s.threads| && s.threads[tid] == RequestThread(Loading)
    ensures Own(events, tid)
    ensures EndsIn(cfg, name, s, events, s.objs,
                   s.threads[tid := RequestThread(Answered)]
                   + (if s.locked then [] else [UnidleThread(UnidleLists, true)]),
                   true)
  {
    var e := Move(tid, Outcome(true));
    OneMove(cfg, name, s, tid, Outcome(true));
    events := [e];
    if !s.locked {
      var s1 := Run(cfg, name, s, events);
      var last := StoreAndGo(cfg, name, s1, tid);
      assert s1.threads[tid := RequestThread(Answered)] == s.threads[tid := RequestThread(Answered)];
      Append(cfg, name, s, events, last, s.objs,
             s.threads[tid := RequestThread(Answered)] + [UnidleThread(UnidleLists, true)], true);
      events := events + last;
    }
  }

  lemma ScaledListed(space: Space, order: seq<Key>)
    requires Enumerates(order, space)
    ensures ForceScaledIn(space, order) <==> ForceScaledSeen(space)
  {
    var listed := Select(space, order, Scaled);
    if listed != [] {
      assert listed[0] in listed;
    }
  }

  /** LoadOrStore and the `go` statement after it. */
  lemma StoreAndGo(cfg: Config, name: string, s: System, tid: nat) returns (events: seq<Event>)
    requires Sound(s) && tid < |s.threads| && s.threads[tid] == RequestThread(Storing)
    ensures Own(events, tid)
    ensures EndsIn(cfg, name, s, events, s.objs,
                   s.threads[tid := RequestThread(Answered)] + [UnidleThread(UnidleLists, true)], true)
  {
    var e := Move(tid, Outcome(true));
    OneEvent(cfg, name, s, e);
    var s1 := Run(cfg, name, s, [e]);
    OneEvent(cfg, name, s1, e);
    assert s1.threads[tid := RequestThread(Answered)] == s.threads[tid := RequestThread(Answered)];
    Append(cfg, name, s, [e], [e], s.objs,
           s.threads[tid := RequestThread(Answered)] + [UnidleThread(UnidleLists, true)], true);
    events := [e] + [e];
  }

  // ---------------------------------------------------------------- Reconcile

  /** The thread that does the work of a trigger, before and after. */
  function Worker(trigger: Tag, env: Env, done: bool): Thread {
    match trigger
    case ForceScaled => IdleThread(if done then IdleDone else IdleLists, env.now, false, true)
    case ForceIdled => IdleThread(if done then IdleDone else IdleLists, env.now, true, false)
    case _ => UnidleThread(if done then UnidleDone else UnidleLists, false)
  }

  lemma HandledIsRun(cfg: Config, name: string, s: System, tid: nat, trigger: Tag, env: Env)
    returns (events: seq<Event>)
    requires Sound(s) && tid < |s.threads| && s.threads[tid] == Worker(trigger, env, false)
    requires trigger in {ForceScaled, ForceIdled, UnidleNow} && WellFormed(s.objs, env)
    ensures Own(events, tid)
    ensures EndsIn(cfg, name, s, events, Handled(cfg, name, s.objs, env, trigger),
                   s.threads[tid := Worker(trigger, env, true)], s.locked && trigger != UnidleNow)
  {
    match trigger
    case ForceScaled => events := IdleIsRun(cfg, name, s.objs[Ns], s, tid, env, false, true);
    case ForceIdled => events := IdleIsRun(cfg, name, s.objs[Ns], s, tid, env, true, false);
    case _ => events := UnidleIsRun(cfg, name, s, tid, false, env);
  }

  /** A Reconcile with work to do, uninterrupted: a worker thread and then a thread that clears the label. */
  lemma ReconcileIsRun(cfg: Config, name: string, s: System, env: Env) returns (events: seq<Event>)
    requires Sound(s) && WellFormed(s.objs, env)
    ensures var triggers := Triggers(s.objs);
            EndsIn(cfg, name, s, events, Reconciled(cfg, name, s.objs, env),
                   s.threads + (if triggers == [] then []
                                else [Worker(triggers[0], env, true), ClearThread(triggers[0], true)]),
                   s.locked && triggers != [UnidleNow])
  {
    if Triggers(s.objs) == [] {
      events := [];
      assert s.threads + [] == s.threads;
      return;
    }
    var t := Triggers(s.objs)[0];
    events := WorkIsRun(cfg, name, s, t, env);
    var s1 := Run(cfg, name, s, events);
    var clear := ClearIsRun(cfg, name, s1, t, env.clearFault);
    var threads := s.threads + [Worker(t, env, true), ClearThread(t, true)];
    assert s1.threads + [ClearThread(t, true)] == threads;
    Append(cfg, name, s, events, clear, Reconciled(cfg, name, s.objs, env), threads, s.locked && t != UnidleNow);
    events := events + clear;
  }

  /** The worker from its start to its end. */
  lemma WorkIsRun(cfg: Config, name: string, s: System, trigger: Tag, env: Env) returns (events: seq<Event>)
    requires Sound(s) && trigger in {ForceScaled, ForceIdled, UnidleNow} && WellFormed(s.objs, env)
    ensures EndsIn(cfg, name, s, events, Handled(cfg, name, s.objs, env, trigger),
                   s.threads + [Worker(trigger, env, true)], s.locked && trigger != UnidleNow)
  {
    var n := |s.threads|;
    var start := Start(Worker(trigger, env, false));
    OneEvent(cfg, name, s, start);
    var s1 := Run(cfg, name, s, [start]);
    var work := HandledIsRun(cfg, name, s1, n, trigger, env);
    assert s1.threads[n := Worker(trigger, env, true)] == s.threads + [Worker(trigger, env, true)];
    Append(cfg, name, s, [start], work, Handled(cfg, name, s.objs, env, trigger),
           s.threads + [Worker(trigger, env, true)], s.locked && trigger != UnidleNow);
    events := [start] + work;
  }

  lemma ClearIsRun(cfg: Config, name: string, s: System, trigger: Tag, fault: bool) returns (events: seq<Event>)
    requires Sound(s) && trigger in {ForceScaled, ForceIdled, UnidleNow}
    ensures EndsIn(cfg, name, s, events, Consumed(name, s.objs, trigger, fault),
                   s.threads + [ClearThread(trigger, true)], s.locked)
  {
    var start, move := Start(ClearThread(trigger, false)), Move(|s.threads|, Outcome(!fault));
    OneEvent(cfg, name, s, start);
    var s1 := Run(cfg, name, s, [start]);
    OneEvent(cfg, name, s1, move);
    assert Consumed(name, s.objs, trigger, fault) == MoveObjs(name, s1, |s.threads|, Outcome(!fault));
    assert s1.threads[|s.threads| := ClearThread(trigger, true)] == s.threads + [ClearThread(trigger, true)];
    Append(cfg, name, s, [start], [move], Consumed(name, s.objs, trigger, fault),
           s.threads + [ClearThread(trigger, true)], s.locked);
    events := [start] + [move];
  }
}
