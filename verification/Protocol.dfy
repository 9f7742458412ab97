/** All writers of one namespace side by side. A step is one List, one Patch or one lock operation of
    one thread; between two steps of a thread any other thread may move. Lists are answered from a
    cache: for each object they return some version it has had so far. */
module Protocol {
  import opened Options
  import opened Clusters
  import opened Patches
  import opened Idlers

  /** Where a run of Unidle stands (internal/handlers/unidler/unidler.go:131-212). */
  datatype UnidlePc =
    | UnidleLists
    | Scaling(view: Space, todo: seq<Key>)
    | UnidleListsIngresses
    | Stripping(view: Space, todo: seq<Key>)
    | Unmarking
    | Unlocking
    | UnidleDone

  /** Where a run of KubernetesServiceIdler stands (internal/handlers/idler/service-kubernetes.go:76-316). */
  datatype IdlePc =
    | IdleLists
    | IdleListsIngresses(view: Space, deps: seq<Key>)
    | Annotating(ingresses: Space, todo: seq<Key>, patched: bool, view: Space, deps: seq<Key>)
    | Marking(view: Space, deps: seq<Key>)
    | Idling(view: Space, deps: seq<Key>)
    | IdleDone

  /** Where an admissible, verified request stands (internal/handlers/unidler/handler.go:136-156). */
  datatype RequestPc = Checking | Loading | Storing | Spawning | Answered

  datatype Thread =
    | UnidleThread(upc: UnidlePc, fromHandler: bool)
    | IdleThread(ipc: IdlePc, now: string, forceIdle: bool, forceScale: bool)
    | RequestThread(rpc: RequestPc)
    | ClearThread(trigger: Tag, cleared: bool)
    | Crashed

  /** `seen` holds every version of every object so far; `locked` is the namespace's entry in Locks. */
  datatype System = System(objs: Space, seen: set<(Key, Object)>, threads: seq<Thread>, locked: bool)

  /** What the outside decides about a step: the answer to a List and its order, whether the call
      succeeds, and for the idler whether its checks call for idling. */
  datatype Choice = Choice(view: Space, order: seq<Key>, ok: bool, proceed: bool)

  datatype Event =
    | Start(thread: Thread)
    | Move(tid: nat, choice: Choice)
    | Crash(tid: nat)
    | Admit                       // a request whose Load, LoadOrStore and go happen as one step

  datatype Write = Write(op: Op, key: Key, snap: Object)

  /** The patch a thread is about to send. */
  function Pending(objs: Space, t: Thread): Option<Write> {
    match t
    case UnidleThread(Scaling(view, todo), _) => FirstWrite(objs, Wake, view, todo)
    case UnidleThread(Stripping(view, todo), _) => FirstWrite(objs, Strip, view, todo)
    case UnidleThread(Unmarking, _) => FirstWrite(objs, Mark("false"), objs, [Ns])
    case IdleThread(Annotating(view, todo, _, _, _), _, _, _) => FirstWrite(objs, Annotate, view, todo)
    case IdleThread(Marking(_, _), _, _, _) => FirstWrite(objs, Mark("true"), objs, [Ns])
    case IdleThread(Idling(view, todo), now, fi, fs) => FirstWrite(objs, Idle(now, fi, fs), view, todo)
    case ClearThread(trigger, false) => FirstWrite(objs, Clear(trigger), objs, [Ns])
    case _ => None
  }

  function FirstWrite(objs: Space, op: Op, view: Space, todo: seq<Key>): Option<Write> {
    if todo != [] && todo[0] in view && todo[0] in objs then Some(Write(op, todo[0], view[todo[0]])) else None
  }

  predicate IsListing(t: Thread) {
    match t
    case UnidleThread(UnidleLists, _) | UnidleThread(UnidleListsIngresses, _) => true
    case IdleThread(IdleLists, _, _, _) | IdleThread(IdleListsIngresses(_, _), _, _, _) => true
    case RequestThread(Checking) => true
    case _ => false
  }

  function AdvanceUnidle(pc: UnidlePc, c: Choice): UnidlePc {
    match pc
    case UnidleLists => if c.ok then Scaling(c.view, Select(c.view, c.order, Watched)) else Unlocking
    case Scaling(view, todo) => if todo == [] then UnidleListsIngresses else Scaling(view, todo[1..])
    case UnidleListsIngresses => if c.ok then Stripping(c.view, Select(c.view, c.order, AllIngresses)) else Unmarking
    case Stripping(view, todo) => if todo == [] then Unmarking else Stripping(view, todo[1..])
    case Unmarking => Unlocking
    case Unlocking | UnidleDone => UnidleDone
  }

  function AdvanceIdle(cfg: Config, pc: IdlePc, c: Choice): IdlePc {
    match pc
    case IdleLists =>
      if c.ok && c.proceed && !cfg.dryRun then
        var deps := Select(c.view, c.order, Deployments(cfg.deployments));
        if cfg.skipIngressPatch then Idling(c.view, deps) else IdleListsIngresses(c.view, deps)
      else IdleDone
    case IdleListsIngresses(view, deps) =>
      if c.ok then Annotating(c.view, Select(c.view, c.order, Ingresses(cfg.ingress)), false, view, deps) else IdleDone
    case Annotating(ingresses, todo, patched, view, deps) =>
      if todo == [] then (if patched then Marking(view, deps) else Idling(view, deps))
      else if c.ok then Annotating(ingresses, todo[1..], true, view, deps) else IdleDone
    case Marking(view, deps) => if c.ok then Idling(view, deps) else IdleDone
    case Idling(view, deps) => if deps == [] then IdleDone else Idling(view, deps[1..])
    case IdleDone => IdleDone
  }

  predicate ForceScaledIn(view: Space, order: seq<Key>) {
    Select(view, order, Scaled) != []
  }

  function AdvanceRequest(pc: RequestPc, locked: bool, c: Choice): RequestPc {
    match pc
    case Checking => if c.ok && ForceScaledIn(c.view, c.order) then Answered else Loading
    case Loading => if locked then Answered else Storing
    case Storing => Spawning
    case Spawning | Answered => Answered
  }

  function Advance(cfg: Config, t: Thread, locked: bool, c: Choice): Thread {
    match t
    case UnidleThread(pc, h) => UnidleThread(AdvanceUnidle(pc, c), h)
    case IdleThread(pc, now, fi, fs) => IdleThread(AdvanceIdle(cfg, pc, c), now, fi, fs)
    case RequestThread(pc) => RequestThread(AdvanceRequest(pc, locked, c))
    case ClearThread(trigger, _) => ClearThread(trigger, true)
    case Crashed => Crashed
  }

  /** LoadOrStore sets the entry; the deferred Delete of any Unidle removes it. */
  function Relock(t: Thread, locked: bool): bool {
    if t == RequestThread(Storing) then true
    else if t.UnidleThread? && t.upc == Unlocking then false
    else locked
  }

  function Spawned(t: Thread): seq<Thread> {
    if t == RequestThread(Spawning) then [UnidleThread(UnidleLists, true)] else []
  }

  function Effect(name: string, objs: Space, w: Option<Write>, ok: bool): Space {
    if w.Some? && ok && w.value.key in objs
    then objs[w.value.key := Written(name, w.value.op, w.value.snap, objs[w.value.key])] else objs
  }

  predicate Initial(t: Thread) {
    match t
    case UnidleThread(pc, h) => pc == UnidleLists && !h       // started by the reconciler
    case IdleThread(pc, _, _, _) => pc == IdleLists
    case RequestThread(pc) => pc == Checking
    case ClearThread(trigger, cleared) => !cleared && trigger in {ForceScaled, ForceIdled, UnidleNow}
    case Crashed => false
  }

  /** A possible answer of the cache: every object, each in some version it has had. */
  ghost predicate Answers(view: Space, objs: Space, seen: set<(Key, Object)>) {
    view.Keys == objs.Keys && forall k :: k in view ==> (k, view[k]) in seen
  }

  ghost predicate Enabled(s: System, e: Event) {
    match e
    case Start(t) => Initial(t)
    case Move(tid, c) =>
      tid < |s.threads|
      && (IsListing(s.threads[tid]) && c.ok ==> Answers(c.view, s.objs, s.seen) && Enumerates(c.order, c.view))
    case Crash(tid) => tid < |s.threads|
    case Admit => true
  }

  function MoveObjs(name: string, s: System, tid: nat, c: Choice): Space
    requires tid < |s.threads|
  {
    Effect(name, s.objs, Pending(s.objs, s.threads[tid]), c.ok)
  }

  function Next(cfg: Config, name: string, s: System, e: Event): System
    requires e.Move? || e.Crash? ==> e.tid < |s.threads|
  {
    match e
    case Start(t) => s.(threads := s.threads + [t])
    case Move(tid, c) =>
      var t := s.threads[tid];
      var objs := MoveObjs(name, s, tid, c);
      System(objs, s.seen + set k | k in objs :: (k, objs[k]),
             s.threads[tid := Advance(cfg, t, s.locked, c)] + Spawned(t), Relock(t, s.locked))
    case Crash(tid) => s.(threads := s.threads[tid := Crashed])
    case Admit =>
      if s.locked then s
      else s.(threads := s.threads + [UnidleThread(UnidleLists, true)], locked := true)
  }

  ghost predicate ValidRun(cfg: Config, name: string, s: System, events: seq<Event>)
    decreases |events|
  {
    events == [] || (Enabled(s, events[0]) && ValidRun(cfg, name, Next(cfg, name, s, events[0]), events[1..]))
  }

  ghost function Run(cfg: Config, name: string, s: System, events: seq<Event>): System
    requires ValidRun(cfg, name, s, events)
    decreases |events|
  {
    if events == [] then s else Run(cfg, name, Next(cfg, name, s, events[0]), events[1..])
  }

  /** A run may be continued by another. */
  lemma {:induction false} RunConcat(cfg: Config, name: string, s: System, a: seq<Event>, b: seq<Event>)
    requires ValidRun(cfg, name, s, a) && ValidRun(cfg, name, Run(cfg, name, s, a), b)
    ensures ValidRun(cfg, name, s, a + b)
    ensures Run(cfg, name, s, a + b) == Run(cfg, name, Run(cfg, name, s, a), b)
    decreases |a|
  {
    if a == [] {
      assert a + b == b;
    } else {
      assert (a + b)[1..] == a[1..] + b;
      RunConcat(cfg, name, Next(cfg, name, s, a[0]), a[1..], b);
    }
  }

  lemma RunExtends(cfg: Config, name: string, s: System, events: seq<Event>, e: Event)
    requires ValidRun(cfg, name, s, events) && Enabled(Run(cfg, name, s, events), e)
    ensures ValidRun(cfg, name, s, events + [e])
    ensures Run(cfg, name, s, events + [e]) == Next(cfg, name, Run(cfg, name, s, events), e)
  {
    RunOne(cfg, name, Run(cfg, name, s, events), e);
    RunConcat(cfg, name, s, events, [e]);
  }

  lemma RunOne(cfg: Config, name: string, s: System, e: Event)
    requires Enabled(s, e)
    ensures ValidRun(cfg, name, s, [e]) && Run(cfg, name, s, [e]) == Next(cfg, name, s, e)
  {
    assert [e][1..] == [];
    assert ValidRun(cfg, name, Next(cfg, name, s, e), []);
  }

  function Boot(objs: Space): System {
    System(objs, set k | k in objs :: (k, objs[k]), [], false)
  }

  // ---------------------------------------------------------------- well-formed systems

  ghost predicate Todo(objs: Space, todo: seq<Key>, op: Op) {
    forall k :: k in todo ==> k in objs && OnKind(op, k)
  }

  /** A thread's snapshots are made of seen versions, and its work lists hold keys of the right kind. */
  ghost predicate ThreadSound(objs: Space, seen: set<(Key, Object)>, t: Thread) {
    match t
    case UnidleThread(Scaling(view, todo), _) => Answers(view, objs, seen) && Todo(objs, todo, Wake)
    case UnidleThread(Stripping(view, todo), _) => Answers(view, objs, seen) && Todo(objs, todo, Strip)
    case UnidleThread(_, _) => true
    case IdleThread(pc, now, fi, fs) => IdleSound(objs, seen, pc, Idle(now, fi, fs))
    case RequestThread(_) => true
    case ClearThread(trigger, cleared) => !cleared ==> OnKind(Clear(trigger), Ns)
    case Crashed => true
  }

  ghost predicate IdleSound(objs: Space, seen: set<(Key, Object)>, pc: IdlePc, op: Op) {
    match pc
    case IdleLists | IdleDone => true
    case IdleListsIngresses(view, deps) => Answers(view, objs, seen) && Todo(objs, deps, op)
    case Annotating(ingresses, todo, _, view, deps) =>
      Answers(ingresses, objs, seen) && Todo(objs, todo, Annotate) && Answers(view, objs, seen) && Todo(objs, deps, op)
    case Marking(view, deps) => Answers(view, objs, seen) && Todo(objs, deps, op)
    case Idling(view, deps) => Answers(view, objs, seen) && Todo(objs, deps, op)
  }

  ghost predicate Sound(s: System) {
    && Ns in s.objs
    && Answers(s.objs, s.objs, s.seen)
    && forall i :: 0 <= i < |s.threads| ==> ThreadSound(s.objs, s.seen, s.threads[i])
  }

  lemma SoundGrows(t: Thread, objs: Space, objs': Space, seen: set<(Key, Object)>, seen': set<(Key, Object)>)
    requires ThreadSound(objs, seen, t) && objs'.Keys == objs.Keys && seen <= seen'
    ensures ThreadSound(objs', seen', t)
  {
  }

  lemma AdvanceSound(cfg: Config, t: Thread, s: System, c: Choice)
    requires ThreadSound(s.objs, s.seen, t)
    requires IsListing(t) && c.ok ==> Answers(c.view, s.objs, s.seen) && Enumerates(c.order, c.view)
    ensures ThreadSound(s.objs, s.seen, Advance(cfg, t, s.locked, c))
  {
    match t
    case IdleThread(pc, now, fi, fs) => AdvanceIdleSound(cfg, pc, now, fi, fs, s, c);
    case _ =>
  }

  lemma AdvanceIdleSound(cfg: Config, pc: IdlePc, now: string, fi: bool, fs: bool, s: System, c: Choice)
    requires IdleSound(s.objs, s.seen, pc, Idle(now, fi, fs))
    requires IsListing(IdleThread(pc, now, fi, fs)) && c.ok ==>
             Answers(c.view, s.objs, s.seen) && Enumerates(c.order, c.view)
    ensures IdleSound(s.objs, s.seen, AdvanceIdle(cfg, pc, c), Idle(now, fi, fs))
  {
  }

  lemma NextSound(cfg: Config, name: string, s: System, e: Event)
    requires Sound(s) && Enabled(s, e)
    ensures Sound(Next(cfg, name, s, e))
    ensures Next(cfg, name, s, e).objs.Keys == s.objs.Keys && s.seen <= Next(cfg, name, s, e).seen
  {
    var s' := Next(cfg, name, s, e);
    match e
    case Start(_) | Crash(_) | Admit =>
    case Move(tid, c) =>
      AdvanceSound(cfg, s.threads[tid], s, c);
      forall i | 0 <= i < |s'.threads|
        ensures ThreadSound(s'.objs, s'.seen, s'.threads[i])
      {
        if i < |s.threads| {
          SoundGrows(if i == tid then Advance(cfg, s.threads[tid], s.locked, c) else s.threads[i],
                     s.objs, s'.objs, s.seen, s'.seen);
        }
      }
  }

  lemma {:induction false} RunSound(cfg: Config, name: string, s: System, events: seq<Event>)
    requires Sound(s) && ValidRun(cfg, name, s, events)
    ensures Sound(Run(cfg, name, s, events))
    ensures Run(cfg, name, s, events).objs.Keys == s.objs.Keys
    decreases |events|
  {
    if events != [] {
      NextSound(cfg, name, s, events[0]);
      RunSound(cfg, name, Next(cfg, name, s, events[0]), events[1..]);
    }
  }

  // ---------------------------------------------------------------- invariants of single objects

  type ObjectProperty = (Key, Object) -> bool

  /** Every version of every object so far has the property. */
  ghost predicate Always(p: ObjectProperty, s: System) {
    forall k, o :: (k, o) in s.seen ==> p(k, o)
  }

  /** `op`, computed from a version that has the property, keeps it on any version that has it. */
  ghost predicate Preserves(p: ObjectProperty, name: string, op: Op) {
    forall k, snap, o :: OnKind(op, k) && p(k, snap) && p(k, o) ==> p(k, Written(name, op, snap, o))
  }

  lemma PendingSound(s: System, t: Thread)
    requires Sound(s) && ThreadSound(s.objs, s.seen, t)
    ensures var w := Pending(s.objs, t);
            w.Some? ==>
              && w.value.key in s.objs && (w.value.key, w.value.snap) in s.seen
              && OnKind(w.value.op, w.value.key)
  {
  }

  /** One step: it is enough that the patch about to be sent preserves the property. */
  lemma StepKeeps(p: ObjectProperty, cfg: Config, name: string, s: System, e: Event)
    requires Sound(s) && Enabled(s, e) && Always(p, s)
    requires e.Move? && Pending(s.objs, s.threads[e.tid]).Some? ==>
               Preserves(p, name, Pending(s.objs, s.threads[e.tid]).value.op)
    ensures Always(p, Next(cfg, name, s, e))
  {
    if e.Move? {
      PendingSound(s, s.threads[e.tid]);
      var objs := MoveObjs(name, s, e.tid, e.choice);
      forall k | k in objs
        ensures p(k, objs[k])
      {
        assert (k, s.objs[k]) in s.seen;
      }
    }
  }

  /** Whole runs, under every interleaving, with stale snapshots, failures and crashes: a property of
      the initial objects that each of the six patches preserves holds of every version ever. */
  lemma {:induction false} RunKeeps(p: ObjectProperty, cfg: Config, name: string, s: System, events: seq<Event>)
    requires Sound(s) && ValidRun(cfg, name, s, events) && Always(p, s)
    requires forall op :: Preserves(p, name, op)
    ensures Always(p, Run(cfg, name, s, events))
    decreases |events|
  {
    if events != [] {
      StepKeeps(p, cfg, name, s, events[0]);
      NextSound(cfg, name, s, events[0]);
      RunKeeps(p, cfg, name, Next(cfg, name, s, events[0]), events[1..]);
    }
  }
}
