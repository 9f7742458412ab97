/** The unidle lock: an entry in `Locks` that the handler sets and every Unidle deletes on return. */
module Lock {
  import opened Options
  import opened Clusters
  import opened Idlers
  import opened Protocol

  /** A run of Unidle that has yet to return. */
  predicate Running(t: Thread) {
    t.UnidleThread? && t.upc != UnidleDone
  }

  /** Will delete the entry: a handler-started run, or a request about to start one. */
  predicate Owes(t: Thread) {
    t == RequestThread(Spawning) || (Running(t) && t.fromHandler)
  }

  // ---------------------------------------------------------------- every operation a separate step

  ghost predicate NeverOrphaned(s: System) {
    s.locked ==> exists i :: 0 <= i < |s.threads| && Owes(s.threads[i])
  }

  lemma StepNotOrphaned(cfg: Config, name: string, s: System, e: Event)
    requires NeverOrphaned(s) && Enabled(s, e) && !e.Crash?
    ensures NeverOrphaned(Next(cfg, name, s, e))
  {
    var s' := Next(cfg, name, s, e);
    if s'.locked {
      match e
      case Start(t) =>
        var i :| 0 <= i < |s.threads| && Owes(s.threads[i]);
        assert s'.threads[i] == s.threads[i];
      case Admit =>
        if s.locked {
          var i :| 0 <= i < |s.threads| && Owes(s.threads[i]);
        } else {
          assert Owes(s'.threads[|s.threads|]);
        }
      case Move(tid, c) =>
        var t := s.threads[tid];
        if t == RequestThread(Storing) {
          assert Owes(s'.threads[tid]);
        } else if t == RequestThread(Spawning) {
          assert Owes(s'.threads[|s.threads|]);
        } else {
          var i :| 0 <= i < |s.threads| && Owes(s.threads[i]);
          assert Owes(s'.threads[i]);
        }
    }
  }

  /** With any number of requests, reconciler runs and idles in any interleaving, an entry always has
      a run that will delete it; once nothing owes a deletion, the namespace is unlocked. */
  lemma {:induction false} LockNeverOrphaned(cfg: Config, name: string, s: System, events: seq<Event>)
    requires NeverOrphaned(s) && ValidRun(cfg, name, s, events) && forall e :: e in events ==> !e.Crash?
    ensures NeverOrphaned(Run(cfg, name, s, events))
    decreases |events|
  {
    if events != [] {
      assert events[0] in events;
      StepNotOrphaned(cfg, name, s, events[0]);
      LockNeverOrphaned(cfg, name, Next(cfg, name, s, events[0]), events[1..]);
    }
  }

  // ---------------------------------------------------------------- runs of Unidle come to an end

  /** A bound on the moves a run still needs, when the namespace holds `n` objects. */
  function MovesLeft(pc: UnidlePc, n: nat): nat {
    match pc
    case UnidleLists => 2 * n + 6
    case Scaling(_, todo) => |todo| + n + 5
    case UnidleListsIngresses => n + 4
    case Stripping(_, todo) => |todo| + 3
    case Unmarking => 2
    case Unlocking => 1
    case UnidleDone => 0
  }

  lemma {:induction false} SelectShorter(space: Space, order: seq<Key>, f: Filter)
    ensures |Select(space, order, f)| <= |order|
  {
    if order != [] {
      SelectShorter(space, order[1..], f);
    }
  }

  lemma {:induction false} DistinctLength(order: seq<Key>, keys: set<Key>)
    requires NoDuplicates(order) && forall k :: k in order ==> k in keys
    ensures |order| <= |keys|
  {
    if order != [] {
      HeadOrRest(order);
      forall i | 0 <= i < |order[1..]|
        ensures order[1..][i] != order[0]
      {
        assert order[1..][i] == order[i + 1];
      }
      assert forall i :: 0 <= i < |order[1..]| ==> order[1..][i] == order[i + 1];
      DistinctLength(order[1..], keys - {order[0]});
    }
  }

  lemma MoveGetsCloser(s: System, tid: nat, c: Choice)
    requires Enabled(s, Move(tid, c)) && Running(s.threads[tid])
    ensures MovesLeft(AdvanceUnidle(s.threads[tid].upc, c), |s.objs|) < MovesLeft(s.threads[tid].upc, |s.objs|)
  {
    var pc := s.threads[tid].upc;
    if (pc.UnidleLists? || pc.UnidleListsIngresses?) && c.ok {
      SelectShorter(c.view, c.order, Watched);
      SelectShorter(c.view, c.order, AllIngresses);
      DistinctLength(c.order, s.objs.Keys);
      assert |s.objs| == |s.objs.Keys|;
    }
  }

  /** How often `events` let the thread move. */
  function Moves(events: seq<Event>, tid: nat): nat {
    if events == [] then 0
    else (if events[0].Move? && events[0].tid == tid then 1 else 0) + Moves(events[1..], tid)
  }

  /** A run of Unidle returns after a bounded number of its own moves, whatever is listed, whatever
      fails and whatever the other threads do. */
  lemma {:induction false} UnidleReturns(cfg: Config, name: string, s: System, events: seq<Event>, tid: nat)
    requires Sound(s) && ValidRun(cfg, name, s, events) && forall e :: e in events ==> !e.Crash?
    requires tid < |s.threads| && s.threads[tid].UnidleThread?
    requires Moves(events, tid) >= MovesLeft(s.threads[tid].upc, |s.objs|)
    ensures var after := Run(cfg, name, s, events);
            tid < |after.threads| && after.threads[tid].UnidleThread? && after.threads[tid].upc == UnidleDone
    decreases |events|
  {
    if events != [] {
      var e := events[0];
      var s' := Next(cfg, name, s, e);
      assert e in events;
      NextSound(cfg, name, s, e);
      assert |s'.objs| == |s.objs| by { assert |s'.objs.Keys| == |s.objs.Keys|; }
      if e.Move? && e.tid == tid {
        if Running(s.threads[tid]) {
          MoveGetsCloser(s, tid, e.choice);
        }
      } else {
        assert s'.threads[tid] == s.threads[tid];
      }
      UnidleReturns(cfg, name, s', events[1..], tid);
    }
  }

  // ---------------------------------------------------------------- when the lock is exclusive

  /** Running, or a request that found no entry and will start a run. */
  predicate Claims(t: Thread) {
    t == RequestThread(Storing) || t == RequestThread(Spawning) || Running(t)
  }

  ghost predicate OneClaim(s: System) {
    forall i, j :: 0 <= i < |s.threads| && 0 <= j < |s.threads| && Claims(s.threads[i]) && Claims(s.threads[j]) ==>
      i == j
  }

  ghost predicate SomeAt(s: System, t: Thread) {
    exists i :: 0 <= i < |s.threads| && s.threads[i] == t
  }

  /** At most one claim; and the entry is there exactly when the claimant has stored it and not yet deleted it. */
  ghost predicate Exclusive(s: System) {
    && OneClaim(s)
    && (s.locked <==>
          exists i :: 0 <= i < |s.threads| && Claims(s.threads[i]) && s.threads[i] != RequestThread(Storing))
  }

  /** A request loads while another one stands between its Load and its LoadOrStore. */
  ghost predicate Races(s: System, e: Event) {
    && (e.Admit? || (e.Move? && e.tid < |s.threads| && s.threads[e.tid] == RequestThread(Loading)))
    && SomeAt(s, RequestThread(Storing))
  }

  ghost predicate RaceFree(cfg: Config, name: string, s: System, events: seq<Event>)
    requires ValidRun(cfg, name, s, events)
    decreases |events|
  {
    events == [] || (!Races(s, events[0]) && RaceFree(cfg, name, Next(cfg, name, s, events[0]), events[1..]))
  }

  /** At no point of the run are there two claims. */
  ghost predicate AlwaysOne(cfg: Config, name: string, s: System, events: seq<Event>)
    requires ValidRun(cfg, name, s, events)
    decreases |events|
  {
    OneClaim(s) && (events == [] || AlwaysOne(cfg, name, Next(cfg, name, s, events[0]), events[1..]))
  }

  /** No Unidle from the reconciler, and no crash of the process. */
  predicate RequestsOnly(e: Event) {
    match e
    case Start(t) => !t.UnidleThread?
    case Crash(_) => false
    case _ => true
  }

  lemma RaceMakesTwo(cfg: Config, name: string, s: System, e: Event)
    requires Exclusive(s) && Enabled(s, e) && Races(s, e)
    ensures !OneClaim(Next(cfg, name, s, e))
  {
    var i :| 0 <= i < |s.threads| && s.threads[i] == RequestThread(Storing);
    var s' := Next(cfg, name, s, e);
    assert Claims(s.threads[i]) && !s.locked;
    assert Claims(s'.threads[i]);
    assert Claims(s'.threads[if e.Move? then e.tid else |s.threads|]);
  }

  lemma StepExclusive(cfg: Config, name: string, s: System, e: Event)
    requires Exclusive(s) && Enabled(s, e) && RequestsOnly(e) && !Races(s, e)
    ensures Exclusive(Next(cfg, name, s, e))
  {
    var s' := Next(cfg, name, s, e);
    match e
    case Start(t) => ExclusiveStart(s, s', t);
    case Admit =>
      if !s.locked {
        ExclusiveEnter(s, s', |s.threads|, true);
      }
    case Move(tid, c) =>
      var t := s.threads[tid];
      if t == RequestThread(Loading) && !s.locked {
        ExclusiveEnter(s, s', tid, false);
      } else if t == RequestThread(Spawning) {
        ExclusiveSpawn(s, s', tid);
      } else {
        ExclusiveMove(s, s', tid, Advance(cfg, t, s.locked, c));
      }
  }

  /** A thread that claims nothing changes nothing. */
  lemma ExclusiveStart(s: System, s': System, t: Thread)
    requires Exclusive(s) && s'.threads == s.threads + [t] && s'.locked == s.locked && !Claims(t)
    ensures Exclusive(s')
  {
    assert forall i :: 0 <= i < |s'.threads| && Claims(s'.threads[i]) ==>
           i < |s.threads| && s'.threads[i] == s.threads[i];
    if s.locked {
      var i :| 0 <= i < |s.threads| && Claims(s.threads[i]) && s.threads[i] != RequestThread(Storing);
      assert s'.threads[i] == s.threads[i];
    }
  }

  /** Without a lock and a storing request there is no claim, so the first may enter. */
  lemma ExclusiveEnter(s: System, s': System, n: nat, locked: bool)
    requires Exclusive(s) && !s.locked && !SomeAt(s, RequestThread(Storing))
    requires n < |s'.threads| && Claims(s'.threads[n]) && s'.locked == locked
    requires s'.threads[n] == RequestThread(Storing) <==> !locked
    requires forall i :: 0 <= i < |s'.threads| && i != n ==> i < |s.threads| && s'.threads[i] == s.threads[i]
    ensures Exclusive(s')
  {
    forall i | 0 <= i < |s.threads|
      ensures !Claims(s.threads[i])
    {
      if s.threads[i] == RequestThread(Storing) {
        assert SomeAt(s, RequestThread(Storing));
      }
    }
  }

  /** The claim goes from the request to the goroutine it starts. */
  lemma ExclusiveSpawn(s: System, s': System, tid: nat)
    requires Exclusive(s) && tid < |s.threads| && s.threads[tid] == RequestThread(Spawning)
    requires s'.threads == s.threads[tid := RequestThread(Answered)] + [UnidleThread(UnidleLists, true)]
    requires s'.locked == s.locked
    ensures Exclusive(s')
  {
    assert Claims(s.threads[tid]);
    forall i | 0 <= i < |s.threads|
      ensures !Claims(s'.threads[i])
    {
      if Claims(s.threads[i]) {
        assert i == tid;
      }
    }
    assert Claims(s'.threads[|s.threads|]);
  }

  /** Any other move of one thread: the claimant stores, runs on or gives up, and with it the lock. */
  lemma ExclusiveMove(s: System, s': System, tid: nat, t: Thread)
    requires Exclusive(s) && tid < |s.threads| && s'.threads == s.threads[tid := t]
    requires s'.locked == Relock(s.threads[tid], s.locked)
    requires Claims(t) <==> Claims(s.threads[tid]) && s.threads[tid] != UnidleThread(Unlocking, true)
                            && s.threads[tid] != UnidleThread(Unlocking, false)
    requires t != RequestThread(Storing)
    ensures Exclusive(s')
  {
    assert s'.threads[tid] == t;
    if Claims(s.threads[tid]) {
      assert forall i :: 0 <= i < |s.threads| && i != tid ==> s'.threads[i] == s.threads[i];
      assert s.locked <==> s.threads[tid] != RequestThread(Storing);
    } else {
      assert forall i :: 0 <= i < |s.threads| && i != tid ==> s'.threads[i] == s.threads[i];
      if s.locked {
        var i :| 0 <= i < |s.threads| && Claims(s.threads[i]) && s.threads[i] != RequestThread(Storing);
        assert s'.threads[i] == s.threads[i];
      }
    }
  }

  /** With Load and LoadOrStore as separate steps, there is never more than one run of Unidle pending or
      running if and only if no request loads while another stands before its LoadOrStore; and then the
      entry is present exactly while one run is pending or running. */
  lemma {:induction false} LockIsExclusive(cfg: Config, name: string, s: System, events: seq<Event>)
    requires Exclusive(s) && ValidRun(cfg, name, s, events) && forall e :: e in events ==> RequestsOnly(e)
    ensures AlwaysOne(cfg, name, s, events) <==> RaceFree(cfg, name, s, events)
    ensures RaceFree(cfg, name, s, events) ==> Exclusive(Run(cfg, name, s, events))
    decreases |events|
  {
    if events != [] {
      assert events[0] in events;
      if Races(s, events[0]) {
        RaceMakesTwo(cfg, name, s, events[0]);
      } else {
        StepExclusive(cfg, name, s, events[0]);
        LockIsExclusive(cfg, name, Next(cfg, name, s, events[0]), events[1..]);
      }
    }
  }

  /** A claimant left to move ends up running, in its own place or in the goroutine it starts. */
  lemma {:induction false} ClaimRuns(cfg: Config, name: string, s: System, i: nat) returns (events: seq<Event>, a: nat)
    requires i < |s.threads| && Claims(s.threads[i])
    ensures ValidRun(cfg, name, s, events)
    ensures var s' := Run(cfg, name, s, events);
            && a < |s'.threads| && Running(s'.threads[a]) && (a == i || a >= |s.threads|)
            && |s.threads| <= |s'.threads|
            && forall k :: 0 <= k < |s.threads| && k != i ==> s'.threads[k] == s.threads[k]
    decreases s.threads[i] == RequestThread(Storing)
  {
    var e := Move(i, Choice(map[], [], true, true));
    if Running(s.threads[i]) {
      events, a := [], i;
    } else {
      RunOne(cfg, name, s, e);
      if s.threads[i] == RequestThread(Spawning) {
        events, a := [e], |s.threads|;
      } else {
        var rest;
        rest, a := ClaimRuns(cfg, name, Next(cfg, name, s, e), i);
        RunConcat(cfg, name, s, [e], rest);
        events := [e] + rest;
      }
    }
  }

  /** Two claims are two runs of Unidle at once, as soon as both claimants move. */
  lemma ClaimsBecomeRuns(cfg: Config, name: string, s: System) returns (events: seq<Event>, a: nat, b: nat)
    requires !OneClaim(s)
    ensures ValidRun(cfg, name, s, events)
    ensures var ts := Run(cfg, name, s, events).threads;
            a < b < |ts| && Running(ts[a]) && Running(ts[b])
  {
    var i: nat, j: nat :| i < j < |s.threads| && Claims(s.threads[i]) && Claims(s.threads[j]);
    var first, last;
    first, a := ClaimRuns(cfg, name, s, i);
    var middle := Run(cfg, name, s, first);
    last, b := ClaimRuns(cfg, name, middle, j);
    RunConcat(cfg, name, s, first, last);
    events := first + last;
    if b < a {
      a, b := b, a;
    }
  }

  // ---------------------------------------------------------------- as written, it lets two in

  /** Two requests that both load before either stores. */
  function RacingRequests(c: Choice): seq<Event> {
    [Start(RequestThread(Checking)), Start(RequestThread(Checking)),
     Move(0, c), Move(1, c),   // checkForceScaled
     Move(0, c), Move(1, c),   // Load
     Move(0, c), Move(1, c),   // LoadOrStore
     Move(0, c), Move(1, c)]   // go
  }

  lemma TwoRunsAtOnce(cfg: Config, name: string, base: Space, c: Choice)
    requires Answers(c.view, base, Boot(base).seen) && Enumerates(c.order, c.view)
    requires !ForceScaledIn(c.view, c.order)
    ensures var es := RacingRequests(c);
            && ValidRun(cfg, name, Boot(base), es)
            && var ts := Run(cfg, name, Boot(base), es).threads;
               |ts| == 4 && Running(ts[2]) && Running(ts[3])
  {
    var es := RacingRequests(c);
    var s0 := Boot(base);
    RaceStarts(cfg, name, base, c);
    Race(cfg, name, base, c, es, 2, Checking, false);
    Race(cfg, name, base, c, es, 4, Loading, false);
    Race(cfg, name, base, c, es, 6, Storing, false);
    Race(cfg, name, base, c, es, 8, Spawning, true);
    assert es[..10] == es;
  }

  lemma RaceStarts(cfg: Config, name: string, base: Space, c: Choice)
    ensures var es := RacingRequests(c);
            && ValidRun(cfg, name, Boot(base), es[..2])
            && Run(cfg, name, Boot(base), es[..2]) == Racing(base, Checking, Checking, false, [])
  {
    var es, s0 := RacingRequests(c), Boot(base);
    var one, two := [RequestThread(Checking)], [RequestThread(Checking), RequestThread(Checking)];
    Reach(cfg, name, s0, es, 0, s0, s0.(threads := one));
    Reach(cfg, name, s0, es, 1, s0.(threads := one), s0.(threads := two));
    assert two + [] == two;
  }

  /** Both racing requests take the step they stand before. */
  lemma Race(cfg: Config, name: string, base: Space, c: Choice, es: seq<Event>, i: nat, pc: RequestPc, locked: bool)
    requires Answers(c.view, base, Boot(base).seen) && Enumerates(c.order, c.view) && !ForceScaledIn(c.view, c.order)
    requires i + 2 <= |es| && i > 0 && es[i] == Move(0, c) && es[i + 1] == Move(1, c)
    requires pc != Answered && (locked <==> pc == Spawning)
    requires ValidRun(cfg, name, Boot(base), es[..i])
    requires Run(cfg, name, Boot(base), es[..i]) == Racing(base, pc, pc, locked, [])
    ensures ValidRun(cfg, name, Boot(base), es[..i + 2])
    ensures var pc' := AdvanceRequest(pc, false, c);
            Run(cfg, name, Boot(base), es[..i + 2]) ==
              Racing(base, pc', pc', pc == Storing || pc == Spawning,
                     if pc == Spawning then [UnidleThread(UnidleLists, true), UnidleThread(UnidleLists, true)] else [])
  {
    var pc' := AdvanceRequest(pc, false, c);
    var run := if pc == Spawning then [UnidleThread(UnidleLists, true)] else [];
    var middle := Racing(base, pc', pc, pc == Storing || pc == Spawning, run);
    RaceStep(cfg, name, base, c, pc, pc, locked, [], 0);
    Reach(cfg, name, Boot(base), es, i, Racing(base, pc, pc, locked, []), middle);
    RaceStep(cfg, name, base, c, pc', pc, middle.locked, run, 1);
    Reach(cfg, name, Boot(base), es, i + 1, middle, Next(cfg, name, middle, es[i + 1]));
  }

  function Racing(base: Space, a: RequestPc, b: RequestPc, locked: bool, runs: seq<Thread>): System {
    Boot(base).(threads := [RequestThread(a), RequestThread(b)] + runs, locked := locked)
  }

  lemma RaceStep(cfg: Config, name: string, base: Space, c: Choice, a: RequestPc, b: RequestPc, locked: bool,
                 runs: seq<Thread>, tid: nat)
    requires tid < 2
    requires Answers(c.view, base, Boot(base).seen) && Enumerates(c.order, c.view)
    ensures var s := Racing(base, a, b, locked, runs);
            var pc := if tid == 0 then a else b;
            && Enabled(s, Move(tid, c))
            && Next(cfg, name, s, Move(tid, c)) ==
                 Racing(base, if tid == 0 then AdvanceRequest(a, locked, c) else a,
                        if tid == 1 then AdvanceRequest(b, locked, c) else b,
                        locked || pc == Storing,
                        runs + if pc == Spawning then [UnidleThread(UnidleLists, true)] else [])
  {
    var s := Racing(base, a, b, locked, runs);
    var pc := AdvanceRequest(if tid == 0 then a else b, locked, c);
    RequestMove(cfg, name, base, s, tid, c);
    assert s.threads[tid := RequestThread(pc)]
        == [RequestThread(if tid == 0 then pc else a), RequestThread(if tid == 1 then pc else b)] + runs;
  }

  /** A request writes nothing. */
  lemma RequestMove(cfg: Config, name: string, base: Space, s: System, tid: nat, c: Choice)
    requires tid < |s.threads| && s.threads[tid].RequestThread? && s.objs == base && s.seen == Boot(base).seen
    ensures var t := s.threads[tid];
            Next(cfg, name, s, Move(tid, c)) ==
              System(base, s.seen, s.threads[tid := Advance(cfg, t, s.locked, c)] + Spawned(t), Relock(t, s.locked))
  {
    assert s.seen + (set k | k in base :: (k, base[k])) == s.seen;
  }

  /** Event `i` of `events` leads from `a` to `b`. */
  lemma Reach(cfg: Config, name: string, s: System, events: seq<Event>, i: nat, a: System, b: System)
    requires i < |events| && Enabled(a, events[i]) && Next(cfg, name, a, events[i]) == b
    requires if i == 0 then a == s else ValidRun(cfg, name, s, events[..i]) && Run(cfg, name, s, events[..i]) == a
    ensures ValidRun(cfg, name, s, events[..i + 1]) && Run(cfg, name, s, events[..i + 1]) == b
  {
    PrefixStep(events, i);
    if i == 0 {
      assert events[..0] == [];
    }
    RunExtends(cfg, name, s, events[..i], events[i]);
  }
}
