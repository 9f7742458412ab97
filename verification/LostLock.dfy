/** Why Lock's exclusion needs the reconciler to stay out: it starts Unidle without the lock, and that
    run deletes the lock of another. */
module LostLock {
  import opened Clusters
  import opened Idlers
  import opened Unidlers
  import opened Protocol
  import opened Lock
  import opened Sequential

  /** Nobody stands between Load and LoadOrStore. */
  ghost predicate NoneStoring(s: System) {
    forall i :: 0 <= i < |s.threads| ==> s.threads[i] != RequestThread(Storing)
  }

  /** Moves of one thread alone do not race. */
  lemma {:induction false} AloneIsRaceFree(cfg: Config, name: string, s: System, events: seq<Event>, tid: nat)
    requires ValidRun(cfg, name, s, events) && Own(events, tid) && tid < |s.threads|
    requires forall i :: 0 <= i < |s.threads| && i != tid ==> s.threads[i] != RequestThread(Storing)
    ensures RaceFree(cfg, name, s, events)
    decreases |events|
  {
    if events != [] {
      assert Own(events[1..], tid) by {
        assert forall i :: 0 <= i < |events[1..]| ==> events[1..][i] == events[i + 1];
      }
      AloneIsRaceFree(cfg, name, Next(cfg, name, s, events[0]), events[1..], tid);
    }
  }

  lemma {:induction false} RaceFreeConcat(cfg: Config, name: string, s: System, a: seq<Event>, b: seq<Event>)
    requires ValidRun(cfg, name, s, a) && ValidRun(cfg, name, Run(cfg, name, s, a), b)
    requires RaceFree(cfg, name, s, a) && RaceFree(cfg, name, Run(cfg, name, s, a), b)
    ensures ValidRun(cfg, name, s, a + b) && RaceFree(cfg, name, s, a + b)
    decreases |a|
  {
    RunConcat(cfg, name, s, a, b);
    if a == [] {
      assert a + b == b;
    } else {
      assert (a + b)[1..] == a[1..] + b;
      RaceFreeConcat(cfg, name, Next(cfg, name, s, a[0]), a[1..], b);
    }
  }

  /** A new thread, then a run of its moves alone. */
  lemma StartAlone(cfg: Config, name: string, s: System, t: Thread, rest: seq<Event>,
                   objs: Space, threads: seq<Thread>, locked: bool)
    requires Sound(s) && Initial(t) && NoneStoring(s) && Own(rest, |s.threads|)
    requires EndsIn(cfg, name, s.(threads := s.threads + [t]), rest, objs, threads, locked)
    ensures EndsIn(cfg, name, s, [Start(t)] + rest, objs, threads, locked)
    ensures RaceFree(cfg, name, s, [Start(t)] + rest)
  {
    OneEvent(cfg, name, s, Start(t));
    var s1 := s.(threads := s.threads + [t]);
    assert Run(cfg, name, s, [Start(t)]) == s1 by { RunOne(cfg, name, s, Start(t)); }
    Append(cfg, name, s, [Start(t)], rest, objs, threads, locked);
    AloneIsRaceFree(cfg, name, s1, rest, |s.threads|);
    assert ([Start(t)] + rest)[1..] == rest;
  }

  /** A whole request, from a namespace that is not locked. */
  lemma RequestEnters(cfg: Config, name: string, s: System, env: Env) returns (events: seq<Event>)
    requires Sound(s) && NoneStoring(s) && WellFormed(s.objs, env) && MayStart(s.objs, env, s.locked)
    ensures EndsIn(cfg, name, s, events, s.objs,
                   s.threads + [RequestThread(Answered), UnidleThread(UnidleLists, true)], true)
    ensures RaceFree(cfg, name, s, events)
  {
    var t, n := RequestThread(Checking), |s.threads|;
    NextSound(cfg, name, s, Start(t));
    var s1 := s.(threads := s.threads + [t]);
    var rest := HandlerIsRun(cfg, name, s1, n, s.objs, env);
    var threads := s.threads + [RequestThread(Answered), UnidleThread(UnidleLists, true)];
    assert s1.threads[n := RequestThread(Answered)] + [UnidleThread(UnidleLists, true)] == threads;
    StartAlone(cfg, name, s, t, rest, s.objs, threads, true);
    events := [Start(t)] + rest;
  }

  /** A whole Unidle of the reconciler. */
  lemma ReconcilerUnlocks(cfg: Config, name: string, s: System, env: Env) returns (events: seq<Event>)
    requires Sound(s) && NoneStoring(s) && WellFormed(s.objs, env)
    ensures EndsIn(cfg, name, s, events, Unidled(name, s.objs, env), s.threads + [UnidleThread(UnidleDone, false)],
                   false)
    ensures RaceFree(cfg, name, s, events)
  {
    var t, n := UnidleThread(UnidleLists, false), |s.threads|;
    NextSound(cfg, name, s, Start(t));
    var s1 := s.(threads := s.threads + [t]);
    var rest := UnidleIsRun(cfg, name, s1, n, false, env);
    var threads := s.threads + [UnidleThread(UnidleDone, false)];
    assert s1.threads[n := UnidleThread(UnidleDone, false)] == threads;
    StartAlone(cfg, name, s, t, rest, Unidled(name, s.objs, env), threads, false);
    events := [Start(t)] + rest;
  }

  /** A request starts a run of Unidle; the reconciler's own Unidle comes and goes and takes the lock with
      it; a second request starts a second run while the first has not moved. No request ever raced. */
  lemma ReconcilerLetsSecondIn(cfg: Config, name: string, base: Space, env: Env, unidle: Env, later: Env)
    returns (events: seq<Event>)
    requires WellFormed(base, env) && WellFormed(base, unidle) && MayStart(base, env, false)
    requires WellFormed(Unidled(name, base, unidle), later) && MayStart(Unidled(name, base, unidle), later, false)
    ensures ValidRun(cfg, name, Boot(base), events) && RaceFree(cfg, name, Boot(base), events)
    ensures var ts := Run(cfg, name, Boot(base), events).threads;
            |ts| == 5 && Running(ts[1]) && Running(ts[4])
  {
    var first := RequestEnters(cfg, name, Boot(base), env);
    var s1 := Run(cfg, name, Boot(base), first);
    var rest := SecondEnters(cfg, name, s1, unidle, later);
    RaceFreeConcat(cfg, name, Boot(base), first, rest);
    RunConcat(cfg, name, Boot(base), first, rest);
    events := first + rest;
  }

  /** From any point at which nobody stores: the reconciler's Unidle, then a request. */
  lemma SecondEnters(cfg: Config, name: string, s: System, unidle: Env, later: Env) returns (events: seq<Event>)
    requires Sound(s) && NoneStoring(s) && WellFormed(s.objs, unidle)
    requires WellFormed(Unidled(name, s.objs, unidle), later) && MayStart(Unidled(name, s.objs, unidle), later, false)
    ensures ValidRun(cfg, name, s, events) && RaceFree(cfg, name, s, events)
    ensures Run(cfg, name, s, events).threads
         == s.threads + [UnidleThread(UnidleDone, false), RequestThread(Answered), UnidleThread(UnidleLists, true)]
  {
    var first := ReconcilerUnlocks(cfg, name, s, unidle);
    var s1 := Run(cfg, name, s, first);
    var last := RequestEnters(cfg, name, s1, later);
    RaceFreeConcat(cfg, name, s, first, last);
    RunConcat(cfg, name, s, first, last);
    events := first + last;
  }
}
