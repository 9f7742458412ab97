/** Any number of Unidle runs on one namespace, interleaved in any way and each working from its own
    stale snapshots, end in the cluster that a single run produces. This is why it does no harm to
    the cluster that the unidle lock lets several runs through. */
module Confluence {
  import opened Options
  import opened CommaList
  import opened Hyphens
  import opened Clusters
  import opened Patches
  import opened Idlers
  import opened Unidlers
  import opened Protocol
  import opened UnidlerFacts

  /** The operation Unidle performs on an object. */
  function UnidleOp(k: Key): Op {
    match k
    case Dep(_) => Wake
    case Ing(_) => Strip
    case Ns => Mark("false")
  }

  /** The object that one undisturbed Unidle makes of `o`; it lists only watched deployments. */
  function Target(name: string, k: Key, o: Object): Object {
    if k.Dep? && !Has(o.labels, Watch, "true") then o else Written(name, UnidleOp(k), o, o)
  }

  // ---------------------------------------------------------------- the target is a fixpoint

  lemma WakeFixpoint(name: string, o: Object)
    ensures var t := Written(name, Wake, o, o);
            && Written(name, Wake, o, t) == t && Written(name, Wake, t, t) == t
            && Get(t.labels, Watch) == Get(o.labels, Watch)
  {
    if WakePatch(o).Some? {
      var p := WakePatch(o).value;
      ApplyTwice(p, o);
      assert p.labels[Idled] == Some("false") && Watch !in p.labels;
    }
  }

  lemma MarkFixpoint(name: string, o: Object, snap: Object)
    ensures var t := Written(name, Mark("false"), o, o);
            Written(name, Mark("false"), snap, t) == t && Written(name, Mark("false"), snap, o) == t
  {
    ApplyTwice(MarkPatch("false"), o);
  }

  /** A stripped annotation has nothing left to strip. */
  lemma StripMemberFixpoint(name: string, o: Object, t: Tag, code: string)
    requires StripPatch(name, o).Some?
    requires (t == HttpErrors && code == "503") || (t == Middlewares && code == Middleware(name))
    ensures var s := Written(name, Strip, o, o);
            StripMember(s, t, code) == map[] || (t !in s.annotations && StripMember(s, t, code) == map[t := None])
  {
    StripMemberWritten(name, o, o, t, code);
    if t in o.annotations {
      RemoveIdempotent(o.annotations[t], code);
    }
  }

  lemma StripFixpoint(name: string, o: Object)
    ensures var t := Written(name, Strip, o, o);
            Written(name, Strip, o, t) == t && Written(name, Strip, t, t) == t
  {
    if StripPatch(name, o).Some? {
      var p := StripPatch(name, o).value;
      var t := Apply(p, o);
      assert Written(name, Strip, o, o) == t;
      ApplyTwice(p, o);
      if StripPatch(name, t).Some? {
        StripAgain(name, o, t);
        NothingLeft(t, StripPatch(name, t).value);
      }
    }
  }

  lemma StripAgain(name: string, o: Object, t: Object)
    requires StripPatch(name, o).Some? && t == Written(name, Strip, o, o) && StripPatch(name, t).Some?
    ensures var q := StripPatch(name, t).value;
            && q.replicas.None?
            && (forall x :: x in q.labels ==> q.labels[x] == Get(t.labels, x))
            && (forall x :: x in q.annotations ==> q.annotations[x] == Get(t.annotations, x))
  {
    StrippedElsewhere(name, o);
    StripMemberFixpoint(name, o, HttpErrors, "503");
    StripMemberFixpoint(name, o, Middlewares, Middleware(name));
    var a, b := StripMember(t, HttpErrors, "503"), StripMember(t, Middlewares, Middleware(name));
    var q := StripPatch(name, t).value;
    assert q.annotations == map[IdledAt := None] + a + b;
    forall x | x in q.annotations
      ensures q.annotations[x] == Get(t.annotations, x)
    {
      if x in b {
      } else if x in a {
      }
    }
  }

  /** A patch that sets what is set and deletes what is absent changes nothing. */
  lemma NothingLeft(t: Object, q: Patch)
    requires q.replicas.None?
    requires forall x :: x in q.labels ==> q.labels[x] == Get(t.labels, x)
    requires forall x :: x in q.annotations ==> q.annotations[x] == Get(t.annotations, x)
    ensures Apply(q, t) == t
  {
    forall x
      ensures Get(Merge(t.labels, q.labels), x) == Get(t.labels, x)
    {
      if x in q.labels { assert q.labels[x] == Get(t.labels, x); }
    }
    SameTags(Merge(t.labels, q.labels), t.labels);
    forall x
      ensures Get(Merge(t.annotations, q.annotations), x) == Get(t.annotations, x)
    {
      if x in q.annotations { assert q.annotations[x] == Get(t.annotations, x); }
    }
    SameTags(Merge(t.annotations, q.annotations), t.annotations);
  }

  /** Whatever mixture of original and target a run sees and meets, it writes the target; the one
      mixture that would not, an original met with a target snapshot, never arises. */
  lemma TargetReached(name: string, k: Key, b: Object, snap: Object, o: Object)
    requires k.Dep? ==> Has(b.labels, Watch, "true")
    requires var t := Target(name, k, b);
             (o == b && snap == b) || (o == t && (snap == b || snap == t))
    ensures Written(name, UnidleOp(k), snap, o) == Target(name, k, b)
  {
    match k
    case Dep(_) => WakeFixpoint(name, b);
    case Ing(_) => StripFixpoint(name, b);
    case Ns => MarkFixpoint(name, b, snap);
  }

  lemma TargetWatched(name: string, k: Key, b: Object)
    requires k.Dep?
    ensures Has(Target(name, k, b).labels, Watch, "true") <==> Has(b.labels, Watch, "true")
  {
    WakeFixpoint(name, b);
    assert Get(Target(name, k, b).labels, Watch) == Get(b.labels, Watch);
  }

  // ---------------------------------------------------------------- the invariant

  ghost predicate Reached(name: string, base: Space, objs: Space, k: Key) {
    k in base && k in objs && objs[k] == Target(name, k, base[k])
  }

  ghost predicate AllReached(name: string, base: Space, objs: Space, dep: bool, ing: bool, ns: bool) {
    forall k :: k in base && ((dep && k.Dep?) || (ing && k.Ing?) || (ns && k.Ns?)) ==> Reached(name, base, objs, k)
  }

  /** Only Unidle writes, and it works on watched deployments. */
  ghost predicate OnTask(base: Space, t: Thread) {
    match t
    case UnidleThread(Scaling(_, todo), _) =>
      forall k :: k in todo ==> k in base && k.Dep? && Has(base[k].labels, Watch, "true")
    case UnidleThread(_, _) | RequestThread(_) | Crashed => true
    case _ => false
  }

  /** Everything a run without a failed call has passed is at its target. */
  ghost predicate Progress(name: string, base: Space, objs: Space, t: Thread) {
    match t
    case UnidleThread(UnidleLists, _) => true
    case UnidleThread(Scaling(_, todo), _) =>
      forall k :: k in base && k.Dep? && k !in todo ==> Reached(name, base, objs, k)
    case UnidleThread(UnidleListsIngresses, _) => AllReached(name, base, objs, true, false, false)
    case UnidleThread(Stripping(_, todo), _) =>
      && AllReached(name, base, objs, true, false, false)
      && (forall k :: k in base && k.Ing? && k !in todo ==> Reached(name, base, objs, k))
    case UnidleThread(Unmarking, _) => AllReached(name, base, objs, true, true, false)
    case UnidleThread(_, _) => AllReached(name, base, objs, true, true, true)
    case _ => true
  }

  /** Each version is the original or the target, and once a target was seen the object stays there. */
  ghost predicate Versions(name: string, base: Space, s: System) {
    && s.objs.Keys == base.Keys
    && (forall k, o :: (k, o) in s.seen ==> k in base && (o == base[k] || o == Target(name, k, base[k])))
    && (forall k, o :: (k, o) in s.seen && o != base[k] ==> Reached(name, base, s.objs, k))
  }

  ghost predicate Settling(name: string, base: Space, s: System) {
    && Sound(s)
    && Versions(name, base, s)
    && forall j :: 0 <= j < |s.threads| ==> OnTask(base, s.threads[j])
  }

  /** The same, with the thread `i` making progress. */
  ghost predicate Converging(name: string, base: Space, s: System, i: nat) {
    Settling(name, base, s) && (i < |s.threads| ==> Progress(name, base, s.objs, s.threads[i]))
  }

  /** No writer but Unidle. */
  predicate UnidlesOnly(e: Event) {
    e.Start? ==> e.thread.UnidleThread? || e.thread.RequestThread?
  }

  /** And no failed call of the thread `i`; it may still be cut short, and all others may fail. */
  predicate Harmless(e: Event, i: nat) {
    UnidlesOnly(e) && (e.Move? && e.tid == i ==> e.choice.ok)
  }

  /** A patch about to be sent takes its object to the target. */
  lemma WriteReaches(name: string, base: Space, s: System, t: Thread)
    requires Settling(name, base, s) && ThreadSound(s.objs, s.seen, t) && OnTask(base, t)
    requires Pending(s.objs, t).Some?
    ensures var w := Pending(s.objs, t).value;
            w.key in base && Written(name, w.op, w.snap, s.objs[w.key]) == Target(name, w.key, base[w.key])
  {
    PendingSound(s, t);
    var w := Pending(s.objs, t).value;
    assert w.op == UnidleOp(w.key);
    assert (w.key, s.objs[w.key]) in s.seen;
    TargetReached(name, w.key, base[w.key], w.snap, s.objs[w.key]);
  }

  /** What is at its target stays there, and at most one more object arrives. */
  lemma MoveReaches(cfg: Config, name: string, base: Space, s: System, tid: nat, c: Choice)
    requires Settling(name, base, s) && Enabled(s, Move(tid, c))
    ensures var objs := MoveObjs(name, s, tid, c);
            var w := Pending(s.objs, s.threads[tid]);
            && objs.Keys == base.Keys
            && (forall k :: Reached(name, base, s.objs, k) ==> Reached(name, base, objs, k))
            && (w.Some? && c.ok ==> Reached(name, base, objs, w.value.key))
            && (forall k :: k in base ==> objs[k] == s.objs[k] || Reached(name, base, objs, k))
    ensures Versions(name, base, Next(cfg, name, s, Move(tid, c)))
  {
    var t := s.threads[tid];
    var objs := MoveObjs(name, s, tid, c);
    if Pending(s.objs, t).Some? {
      WriteReaches(name, base, s, t);
    }
    var s' := Next(cfg, name, s, Move(tid, c));
    forall k, o | (k, o) in s'.seen
      ensures k in base && (o == base[k] || o == Target(name, k, base[k]))
      ensures o != base[k] ==> Reached(name, base, objs, k)
    {
      if (k, o) !in s.seen {
        assert (k, s.objs[k]) in s.seen;
      }
    }
  }

  lemma ProgressGrows(name: string, base: Space, objs: Space, objs': Space, t: Thread)
    requires Progress(name, base, objs, t)
    requires forall k :: Reached(name, base, objs, k) ==> Reached(name, base, objs', k)
    ensures Progress(name, base, objs', t)
  {
  }

  /** The deployments a run lists are the watched ones, whichever versions it is shown. */
  lemma ListedProgress(name: string, base: Space, s: System, c: Choice, h: bool)
    requires Settling(name, base, s) && Answers(c.view, s.objs, s.seen) && Enumerates(c.order, c.view)
    ensures var t := UnidleThread(Scaling(c.view, Select(c.view, c.order, Watched)), h);
            OnTask(base, t) && Progress(name, base, s.objs, t)
  {
    var todo := Select(c.view, c.order, Watched);
    forall k | k in base && k.Dep?
      ensures k in todo <==> Has(base[k].labels, Watch, "true")
      ensures k !in todo ==> Reached(name, base, s.objs, k)
    {
      assert (k, c.view[k]) in s.seen && (k, s.objs[k]) in s.seen;
      TargetWatched(name, k, base[k]);
    }
  }

  lemma AdvanceOnTask(cfg: Config, name: string, base: Space, s: System, tid: nat, c: Choice)
    requires Settling(name, base, s) && Enabled(s, Move(tid, c))
    ensures OnTask(base, Advance(cfg, s.threads[tid], s.locked, c))
  {
    var t := s.threads[tid];
    if t.UnidleThread? && t.upc == UnidleLists && c.ok {
      ListedProgress(name, base, s, c, t.fromHandler);
    } else if t.UnidleThread? && t.upc.Scaling? && t.upc.todo != [] {
      HeadOrRest(t.upc.todo);
    }
  }

  lemma AdvanceProgress(cfg: Config, name: string, base: Space, s: System, tid: nat, c: Choice)
    requires Converging(name, base, s, tid) && Enabled(s, Move(tid, c)) && c.ok
    ensures Progress(name, base, MoveObjs(name, s, tid, c), Advance(cfg, s.threads[tid], s.locked, c))
  {
    var t := s.threads[tid];
    if t.UnidleThread? {
      if t.upc == UnidleLists {
        MoveReaches(cfg, name, base, s, tid, c);
        ListedProgress(name, base, s, c, t.fromHandler);
        ProgressGrows(name, base, s.objs, MoveObjs(name, s, tid, c), Advance(cfg, t, s.locked, c));
      } else {
        AdvanceUnidleProgress(cfg, name, base, s, tid, c);
      }
    }
  }

  lemma AdvanceUnidleProgress(cfg: Config, name: string, base: Space, s: System, tid: nat, c: Choice)
    requires Converging(name, base, s, tid) && Enabled(s, Move(tid, c)) && c.ok
    requires s.threads[tid].UnidleThread? && s.threads[tid].upc != UnidleLists
    ensures Progress(name, base, MoveObjs(name, s, tid, c), Advance(cfg, s.threads[tid], s.locked, c))
  {
    var t := s.threads[tid];
    MoveReaches(cfg, name, base, s, tid, c);
    ProgressGrows(name, base, s.objs, MoveObjs(name, s, tid, c), t);
    HeadPending(base, s, t);
    UnidleAdvances(name, base, MoveObjs(name, s, tid, c), t.upc, t.fromHandler, c);
  }

  /** What an Unidle that stands before a patch is about to write. */
  lemma HeadPending(base: Space, s: System, t: Thread)
    requires ThreadSound(s.objs, s.seen, t) && s.objs.Keys == base.Keys && t.UnidleThread?
    ensures (t.upc.Scaling? || t.upc.Stripping?) && t.upc.todo != [] && t.upc.todo[0] in base ==>
              Pending(s.objs, t).Some? && Pending(s.objs, t).value.key == t.upc.todo[0]
    ensures t.upc.Unmarking? && Ns in base ==> Pending(s.objs, t).Some? && Pending(s.objs, t).value.key == Ns
  {
  }

  /** Leaving a phase needs its work list to be empty, and shortening the list its first object done. */
  lemma UnidleAdvances(name: string, base: Space, objs: Space, pc: UnidlePc, h: bool, c: Choice)
    requires c.ok && !pc.UnidleLists? && Progress(name, base, objs, UnidleThread(pc, h))
    requires (pc.Scaling? || pc.Stripping?) && pc.todo != [] && pc.todo[0] in base ==>
             Reached(name, base, objs, pc.todo[0])
    requires pc.Unmarking? && Ns in base ==> Reached(name, base, objs, Ns)
    requires pc.UnidleListsIngresses? ==> c.view.Keys == base.Keys && Enumerates(c.order, c.view)
    ensures Progress(name, base, objs, UnidleThread(AdvanceUnidle(pc, c), h))
  {
    if (pc.Scaling? || pc.Stripping?) && pc.todo != [] {
      HeadOrRest(pc.todo);
    }
  }

  /** Whatever fails and however stale the answers: no object leaves its original or its target. */
  lemma StepSettles(cfg: Config, name: string, base: Space, s: System, e: Event)
    requires Settling(name, base, s) && Enabled(s, e) && UnidlesOnly(e)
    ensures Settling(name, base, Next(cfg, name, s, e))
  {
    NextSound(cfg, name, s, e);
    if e.Move? {
      MoveReaches(cfg, name, base, s, e.tid, e.choice);
    }
    StepOnTask(cfg, name, base, s, e);
  }

  lemma StepOnTask(cfg: Config, name: string, base: Space, s: System, e: Event)
    requires Settling(name, base, s) && Enabled(s, e) && UnidlesOnly(e)
    ensures var s' := Next(cfg, name, s, e);
            forall j :: 0 <= j < |s'.threads| ==> OnTask(base, s'.threads[j])
  {
    if e.Move? {
      AdvanceOnTask(cfg, name, base, s, e.tid, e.choice);
    }
  }

  lemma StepConverges(cfg: Config, name: string, base: Space, s: System, e: Event, i: nat)
    requires Converging(name, base, s, i) && Enabled(s, e) && Harmless(e, i)
    ensures Converging(name, base, Next(cfg, name, s, e), i)
  {
    StepSettles(cfg, name, base, s, e);
    if i < |s.threads| {
      StepProgress(cfg, name, base, s, e, i);
    } else if i < |Next(cfg, name, s, e).threads| {
      NewProgress(cfg, name, base, s, e, i);
    }
  }

  lemma StepProgress(cfg: Config, name: string, base: Space, s: System, e: Event, i: nat)
    requires Converging(name, base, s, i) && Enabled(s, e) && Harmless(e, i) && i < |s.threads|
    ensures var s' := Next(cfg, name, s, e);
            Progress(name, base, s'.objs, s'.threads[i])
  {
    if e.Move? {
      MoveProgress(cfg, name, base, s, e.tid, e.choice, i);
    }
  }

  /** A thread that has just been started has passed nothing yet. */
  lemma NewProgress(cfg: Config, name: string, base: Space, s: System, e: Event, i: nat)
    requires Enabled(s, e) && UnidlesOnly(e) && |s.threads| <= i < |Next(cfg, name, s, e).threads|
    ensures var s' := Next(cfg, name, s, e);
            Progress(name, base, s'.objs, s'.threads[i])
  {
  }

  lemma MoveProgress(cfg: Config, name: string, base: Space, s: System, tid: nat, c: Choice, i: nat)
    requires Converging(name, base, s, i) && Enabled(s, Move(tid, c)) && i < |s.threads| && (tid == i ==> c.ok)
    ensures var s' := Next(cfg, name, s, Move(tid, c));
            Progress(name, base, s'.objs, s'.threads[i])
  {
    if tid == i {
      AdvanceProgress(cfg, name, base, s, i, c);
    } else {
      MoveReaches(cfg, name, base, s, tid, c);
      ProgressGrows(name, base, s.objs, MoveObjs(name, s, tid, c), s.threads[i]);
    }
  }

  lemma {:induction false} RunSettles(cfg: Config, name: string, base: Space, s: System, events: seq<Event>)
    requires Settling(name, base, s) && ValidRun(cfg, name, s, events)
    requires forall e :: e in events ==> UnidlesOnly(e)
    ensures Settling(name, base, Run(cfg, name, s, events))
    decreases |events|
  {
    if events != [] {
      assert events[0] in events;
      StepSettles(cfg, name, base, s, events[0]);
      RunSettles(cfg, name, base, Next(cfg, name, s, events[0]), events[1..]);
    }
  }

  lemma {:induction false} RunConverges(cfg: Config, name: string, base: Space, s: System, events: seq<Event>, i: nat)
    requires Converging(name, base, s, i) && ValidRun(cfg, name, s, events)
    requires forall e :: e in events ==> Harmless(e, i)
    ensures Converging(name, base, Run(cfg, name, s, events), i)
    decreases |events|
  {
    if events != [] {
      assert events[0] in events;
      StepConverges(cfg, name, base, s, events[0], i);
      RunConverges(cfg, name, base, Next(cfg, name, s, events[0]), events[1..], i);
    }
  }

  // ---------------------------------------------------------------- the theorem

  /** One undisturbed run takes every object to its target. */
  lemma UnidledIsTarget(name: string, base: Space, env: Env)
    requires WellFormed(base, env) && env.listsDeployments && env.listsIngresses && env.faults == {}
    ensures AllReached(name, base, Unidled(name, base, env), true, true, true)
  {
    forall k | k in base
      ensures Reached(name, base, Unidled(name, base, env), k)
    {
      match k
      case Ing(_) => UnidledIngress(name, base, env, k);
      case Dep(_) => UnidledDeployment(name, base, env, k);
      case Ns => UnidledNamespace(name, base, env);
    }
  }

  /** Once one of the runs has finished without a failed call, the cluster is what a single undisturbed
      run makes of it, whatever has failed in the others, and it stays that way whatever they still do. */
  lemma UnidlesConfluent(cfg: Config, name: string, base: Space, events: seq<Event>, env: Env, i: nat)
    requires Ns in base && ValidRun(cfg, name, Boot(base), events)
    requires forall e :: e in events ==> Harmless(e, i)
    requires i < |Run(cfg, name, Boot(base), events).threads|
    requires var t := Run(cfg, name, Boot(base), events).threads[i]; t.UnidleThread? && t.upc == UnidleDone
    requires WellFormed(base, env) && env.listsDeployments && env.listsIngresses && env.faults == {}
    ensures Run(cfg, name, Boot(base), events).objs == Unidled(name, base, env)
  {
    RunConverges(cfg, name, base, Boot(base), events, i);
    UnidledIsTarget(name, base, env);
    DoneIsReached(name, base, Run(cfg, name, Boot(base), events), i);
    SameWhenReached(name, base, Run(cfg, name, Boot(base), events).objs, Unidled(name, base, env));
  }

  lemma DoneIsReached(name: string, base: Space, s: System, i: nat)
    requires Converging(name, base, s, i) && i < |s.threads| && s.threads[i].UnidleThread?
             && s.threads[i].upc == UnidleDone
    ensures s.objs.Keys == base.Keys && AllReached(name, base, s.objs, true, true, true)
  {
    assert Progress(name, base, s.objs, s.threads[i]);
  }

  /** On the way there, and whatever fails, no object is ever seen in a version other than its original
      and the one that a single undisturbed run makes of it. */
  lemma NoThirdVersion(cfg: Config, name: string, base: Space, events: seq<Event>, env: Env)
    requires Ns in base && ValidRun(cfg, name, Boot(base), events)
    requires forall e :: e in events ==> UnidlesOnly(e)
    requires WellFormed(base, env) && env.listsDeployments && env.listsIngresses && env.faults == {}
    ensures forall k, o :: (k, o) in Run(cfg, name, Boot(base), events).seen ==>
              k in base && (o == base[k] || o == Unidled(name, base, env)[k])
  {
    RunSettles(cfg, name, base, Boot(base), events);
    UnidledIsTarget(name, base, env);
    forall k | k in base
      ensures Unidled(name, base, env)[k] == Target(name, k, base[k])
    {
      assert Reached(name, base, Unidled(name, base, env), k);
    }
  }

  lemma SameWhenReached(name: string, base: Space, a: Space, b: Space)
    requires a.Keys == base.Keys && b.Keys == base.Keys
    requires AllReached(name, base, a, true, true, true) && AllReached(name, base, b, true, true, true)
    ensures a == b
  {
    forall k | k in base
      ensures a[k] == b[k]
    {
      assert Reached(name, base, a, k) && Reached(name, base, b, k);
    }
  }
}
