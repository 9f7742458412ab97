/** The way back up. When no idle overlaps an Unidle, at every single step - so also wherever a run
    crashes - an idled deployment implies that every selected ingress leads to the unidler. */
module WakePath {
  import opened Options
  import opened CommaList
  import opened Hyphens
  import opened Clusters
  import opened Patches
  import opened Idlers
  import opened Protocol
  import opened Safety

  // ---------------------------------------------------------------- the statement

  /** Requests to this ingress reach the unidler, through nginx and through traefik. */
  predicate Carries(name: string, o: Object) {
    "503" in Split(Annotation(o, HttpErrors)) && Middleware(name) in Split(Annotation(o, Middlewares))
  }

  predicate Selected(cfg: Config, k: Key, o: Object) {
    k.Ing? && MatchesAll(cfg.ingress, o.labels)
  }

  predicate IsIdled(k: Key, o: Object) {
    k.Dep? && Has(o.labels, Idled, "true")
  }

  ghost predicate AllCarry(cfg: Config, name: string, objs: Space) {
    forall k :: k in objs && Selected(cfg, k, objs[k]) ==> Carries(name, objs[k])
  }

  ghost predicate NoneIdled(objs: Space) {
    forall k :: k in objs ==> !IsIdled(k, objs[k])
  }

  /** Every selected ingress carries both entries and, if there is one, the namespace is labelled. */
  ghost predicate PathOpen(cfg: Config, name: string, objs: Space) {
    && AllCarry(cfg, name, objs)
    && ((exists k :: k in objs && Selected(cfg, k, objs[k])) ==> Ns in objs && Has(objs[Ns].labels, Idled, "true"))
  }

  ghost predicate Wakeable(cfg: Config, name: string, objs: Space) {
    NoneIdled(objs) || PathOpen(cfg, name, objs)
  }

  // ---------------------------------------------------------------- orderly runs

  /** A run that may still write deployments, ingresses or the idled label. */
  predicate Live(t: Thread) {
    match t
    case UnidleThread(pc, _) => pc != Unlocking && pc != UnidleDone
    case IdleThread(pc, _, _, _) => pc != IdleDone
    case _ => false
  }

  /** No idler run beside an Unidle; runs of the same kind may overlap. */
  ghost predicate SameKind(s: System) {
    forall i, j :: 0 <= i < |s.threads| && 0 <= j < |s.threads| && Live(s.threads[i]) && Live(s.threads[j]) ==>
      s.threads[i].IdleThread? == s.threads[j].IdleThread?
  }

  ghost predicate ShownIdled(objs: Space, view: Space) {
    forall k :: k in objs && IsIdled(k, objs[k]) ==> k in view && IsIdled(k, view[k])
  }

  /** Live runs are of one kind; an Unidle's first List shows as idled whatever deployment is idled; its
      patches of idled deployments succeed. Otherwise every List may be stale, and every call may fail. */
  ghost predicate Orderly(cfg: Config, name: string, s: System, e: Event)
    requires Enabled(s, e)
  {
    && SameKind(Next(cfg, name, s, e))
    && (e.Move? ==>
          match s.threads[e.tid]
          case UnidleThread(UnidleLists, _) => e.choice.ok ==> ShownIdled(s.objs, e.choice.view)
          case UnidleThread(Scaling(_, todo), _) =>
            todo != [] && todo[0] in s.objs && IsIdled(todo[0], s.objs[todo[0]]) ==> e.choice.ok
          case _ => true)
  }

  ghost predicate OrderlyRun(cfg: Config, name: string, s: System, events: seq<Event>)
    requires ValidRun(cfg, name, s, events)
    decreases |events|
  {
    events == []
        || (Orderly(cfg, name, s, events[0]) && OrderlyRun(cfg, name, Next(cfg, name, s, events[0]), events[1..]))
  }

  // ---------------------------------------------------------------- the invariant

  /** What a live run may rely on. */
  ghost predicate Guard(cfg: Config, name: string, objs: Space, t: Thread) {
    match t
    case IdleThread(Annotating(_, todo, patched, _, _), _, _, _) =>
      forall k :: k in objs && Selected(cfg, k, objs[k]) ==> k in todo || (patched && Carries(name, objs[k]))
    case IdleThread(Marking(_, _), _, _, _) => AllCarry(cfg, name, objs)
    case IdleThread(Idling(_, _), _, _, _) => PathOpen(cfg, name, objs)
    case UnidleThread(Scaling(view, todo), _) =>
      forall k :: k in objs && IsIdled(k, objs[k]) ==> k in todo && k in view && IsIdled(k, view[k])
    case UnidleThread(UnidleListsIngresses, _) | UnidleThread(Stripping(_, _), _) | UnidleThread(Unmarking, _) =>
      NoneIdled(objs)
    case _ => true
  }

  /** What is known of every version: deployments are restorable, selection never changes. */
  ghost predicate Known(cfg: Config, base: Space, s: System) {
    && s.objs.Keys == base.Keys
    && forall k, o :: (k, o) in s.seen ==>
         k in base && (k.Dep? ==> DeploymentOk(o)) && (Selected(cfg, k, o) <==> Selected(cfg, k, base[k]))
  }

  ghost predicate Guarded(cfg: Config, name: string, base: Space, s: System) {
    && Sound(s) && Known(cfg, base, s) && SameKind(s)
    && Wakeable(cfg, name, s.objs)
    && forall i :: 0 <= i < |s.threads| ==> Guard(cfg, name, s.objs, s.threads[i])
  }

  lemma AnnotatedCarries(name: string, snap: Object, o: Object)
    requires CommaFree(name)
    ensures Carries(name, Written(name, Annotate, snap, o))
  {
    MiddlewareIsOneEntry(name);
    AnnotateWritten(name, snap, o);
    AddIdempotent(Annotation(snap, HttpErrors), "503");
    AddIdempotent(Annotation(snap, Middlewares), Middleware(name));
  }

  /** Waking from an idled snapshot always goes through, because idled deployments are restorable. */
  lemma WokenNotIdled(name: string, k: Key, snap: Object, o: Object)
    requires k.Dep? && DeploymentOk(snap) && IsIdled(k, snap)
    ensures !IsIdled(k, Written(name, Wake, snap, o))
  {
    WakeWritten(name, snap, o);
  }

  lemma MarkedIdled(name: string, value: string, snap: Object, o: Object)
    ensures Has(Written(name, Mark(value), snap, o).labels, Idled, value)
  {
    assert MarkPatch(value).labels[Idled] == Some(value);
  }

  /** A write keeps the set of selected ingresses, and keeps versions known. */
  lemma NextKnown(cfg: Config, name: string, base: Space, s: System, e: Event)
    requires Sound(s) && Known(cfg, base, s) && Enabled(s, e) && Independent(cfg.ingress)
    ensures Known(cfg, base, Next(cfg, name, s, e))
  {
    var p: ObjectProperty := (k: Key, o: Object) =>
      k in base && (k.Dep? ==> DeploymentOk(o)) && (Selected(cfg, k, o) <==> Selected(cfg, k, base[k]));
    assert Always(p, s);
    forall op, k, snap, o | OnKind(op, k) && p(k, snap) && p(k, o)
      ensures p(k, Written(name, op, snap, o))
    {
      if k.Dep? {
        DeploymentPreserved(name, op, k, snap, o);
      }
      WrittenElsewhere(name, op, k, snap, o);
      SelectionStable(cfg.ingress, k, o, Written(name, op, snap, o));
    }
    assert forall op :: Preserves(p, name, op);
    StepKeeps(p, cfg, name, s, e);
    NextSound(cfg, name, s, e);
    var s' := Next(cfg, name, s, e);
    forall k, o | (k, o) in s'.seen
      ensures k in base && (k.Dep? ==> DeploymentOk(o)) && (Selected(cfg, k, o) <==> Selected(cfg, k, base[k]))
    {
      assert p(k, o);
    }
  }

  // ---------------------------------------------------------------- one lemma per kind of step

  lemma StillSelected(cfg: Config, base: Space, s: System, k: Key, o: Object)
    requires Sound(s) && Known(cfg, base, s) && (k, o) in s.seen
    ensures k in s.objs && (Selected(cfg, k, o) <==> Selected(cfg, k, s.objs[k]))
  {
    assert (k, s.objs[k]) in s.seen;
  }

  /** Annotating: selected ingresses already annotated stay so, and one more is. */
  lemma AnnotateStep(cfg: Config, name: string, base: Space, s: System, w: Write)
    requires CommaFree(name) && Sound(s) && Known(cfg, base, s) && Independent(cfg.ingress)
    requires w.op == Annotate && w.key in s.objs && w.key.Ing?
    ensures var objs := s.objs[w.key := Written(name, w.op, w.snap, s.objs[w.key])];
            && Carries(name, objs[w.key])
            && (forall k :: k in s.objs ==> (Selected(cfg, k, objs[k]) <==> Selected(cfg, k, s.objs[k])))
            && (Wakeable(cfg, name, s.objs) ==> Wakeable(cfg, name, objs))
  {
    var objs := s.objs[w.key := Written(name, w.op, w.snap, s.objs[w.key])];
    AnnotatedCarries(name, w.snap, s.objs[w.key]);
    WrittenElsewhere(name, w.op, w.key, w.snap, s.objs[w.key]);
    SelectionStable(cfg.ingress, w.key, s.objs[w.key], objs[w.key]);
    if NoneIdled(s.objs) {
      assert NoneIdled(objs);
    } else if PathOpen(cfg, name, s.objs) {
      PathKept(cfg, name, s.objs, objs);
    }
  }

  /** The path depends only on which ingresses are selected, what they carry, and the namespace label. */
  lemma PathKept(cfg: Config, name: string, objs: Space, objs': Space)
    requires PathOpen(cfg, name, objs) && objs'.Keys == objs.Keys
    requires forall k :: k in objs && Selected(cfg, k, objs'[k]) ==>
               Selected(cfg, k, objs[k]) && (Carries(name, objs[k]) ==> Carries(name, objs'[k]))
    requires Ns in objs ==> Get(objs'[Ns].labels, Idled) == Get(objs[Ns].labels, Idled)
    ensures PathOpen(cfg, name, objs')
  {
  }

  /** Writing a deployment leaves the path as it is. */
  lemma DeploymentStep(cfg: Config, name: string, objs: Space, k: Key, o: Object)
    requires k in objs && k.Dep?
    ensures PathOpen(cfg, name, objs) ==> PathOpen(cfg, name, objs[k := o])
  {
    if PathOpen(cfg, name, objs) {
      PathKept(cfg, name, objs, objs[k := o]);
    }
  }

  /** Removing a trigger label disturbs neither the path nor any other run. */
  lemma ClearStep(cfg: Config, name: string, objs: Space, trigger: Tag, t: Thread)
    requires Ns in objs && OnKind(Clear(trigger), Ns)
    ensures var objs' := objs[Ns := Written(name, Clear(trigger), objs[Ns], objs[Ns])];
            && (Wakeable(cfg, name, objs) ==> Wakeable(cfg, name, objs'))
            && (Guard(cfg, name, objs, t) ==> Guard(cfg, name, objs', t))
  {
    var objs' := objs[Ns := Written(name, Clear(trigger), objs[Ns], objs[Ns])];
    assert Idled !in ClearPatch(trigger).labels;
    if PathOpen(cfg, name, objs) {
      PathKept(cfg, name, objs, objs');
    }
  }

  /** A run without a live successor guards nothing. */
  lemma NotLive(cfg: Config, name: string, objs: Space, t: Thread)
    requires !Live(t)
    ensures Guard(cfg, name, objs, t)
  {
  }

  /** The write of an annotating run. */
  lemma AnnotatingWrites(name: string, s: System, tid: nat, c: Choice)
    requires Sound(s) && tid < |s.threads| && c.ok
    requires s.threads[tid].IdleThread? && s.threads[tid].ipc.Annotating? && s.threads[tid].ipc.todo != []
    ensures var k, view := s.threads[tid].ipc.todo[0], s.threads[tid].ipc.ingresses;
            && k in s.objs && k.Ing? && k in view
            && MoveObjs(name, s, tid, c) == s.objs[k := Written(name, Annotate, view[k], s.objs[k])]
  {
    var t := s.threads[tid];
    assert ThreadSound(s.objs, s.seen, t);
    HeadOrRest(t.ipc.todo);
  }

  /** Once the first ingress of the work list carries the path, the rest of the list is what is left. */
  lemma AnnotatingGuard(cfg: Config, name: string, objs: Space, objs': Space, todo: seq<Key>, patched: bool)
    requires todo != [] && objs'.Keys == objs.Keys && todo[0] in objs && Carries(name, objs'[todo[0]])
    requires forall k :: k in objs && k != todo[0] ==> objs'[k] == objs[k]
    requires forall k :: k in objs && Selected(cfg, k, objs[k]) ==> k in todo || (patched && Carries(name, objs[k]))
    ensures forall k :: k in objs' && Selected(cfg, k, objs'[k]) ==> k in todo[1..] || Carries(name, objs'[k])
  {
    HeadOrRest(todo);
  }

  lemma AnnotatingMove(cfg: Config, name: string, base: Space, s: System, tid: nat, c: Choice)
    requires CommaFree(name) && Independent(cfg.ingress)
    requires Guarded(cfg, name, base, s) && Enabled(s, Move(tid, c))
    requires s.threads[tid].IdleThread? && s.threads[tid].ipc.Annotating? && s.threads[tid].ipc.todo != [] && c.ok
    ensures var objs := MoveObjs(name, s, tid, c);
            Wakeable(cfg, name, objs) && Guard(cfg, name, objs, Advance(cfg, s.threads[tid], s.locked, c))
  {
    var t := s.threads[tid];
    var view, todo := t.ipc.ingresses, t.ipc.todo;
    assert Guard(cfg, name, s.objs, t);
    AnnotatingWrites(name, s, tid, c);
    AnnotateStep(cfg, name, base, s, Write(Annotate, todo[0], view[todo[0]]));
    AnnotatingGuard(cfg, name, s.objs, MoveObjs(name, s, tid, c), todo, t.ipc.patched);
  }

  lemma MarkingMove(cfg: Config, name: string, objs: Space)
    requires Ns in objs && AllCarry(cfg, name, objs)
    ensures PathOpen(cfg, name, objs[Ns := Written(name, Mark("true"), objs[Ns], objs[Ns])])
  {
    MarkedIdled(name, "true", objs[Ns], objs[Ns]);
  }

  lemma ListingMove(cfg: Config, name: string, base: Space, s: System, c: Choice)
    requires Guarded(cfg, name, base, s) && Answers(c.view, s.objs, s.seen) && Enumerates(c.order, c.view)
    ensures forall k :: k in s.objs && Selected(cfg, k, s.objs[k]) ==>
            k in Select(c.view, c.order, Ingresses(cfg.ingress))
  {
    forall k | k in s.objs && Selected(cfg, k, s.objs[k])
      ensures k in Select(c.view, c.order, Ingresses(cfg.ingress))
    {
      StillSelected(cfg, base, s, k, c.view[k]);
    }
  }

  lemma IdlingMove(cfg: Config, name: string, base: Space, s: System, tid: nat, c: Choice)
    requires Guarded(cfg, name, base, s) && Enabled(s, Move(tid, c))
    requires s.threads[tid].IdleThread? && s.threads[tid].ipc.Idling?
    ensures PathOpen(cfg, name, MoveObjs(name, s, tid, c))
  {
    var t := s.threads[tid];
    assert ThreadSound(s.objs, s.seen, t) && Guard(cfg, name, s.objs, t);
    PendingSound(s, t);
    if Pending(s.objs, t).Some? {
      var w := Pending(s.objs, t).value;
      DeploymentStep(cfg, name, s.objs, w.key, Written(name, w.op, w.snap, s.objs[w.key]));
    }
  }

  lemma IdleMove(cfg: Config, name: string, base: Space, s: System, tid: nat, c: Choice)
    requires CommaFree(name) && Independent(cfg.ingress) && !cfg.skipIngressPatch
    requires Guarded(cfg, name, base, s) && Enabled(s, Move(tid, c)) && s.threads[tid].IdleThread?
    ensures var objs := MoveObjs(name, s, tid, c);
            Wakeable(cfg, name, objs) && Guard(cfg, name, objs, Advance(cfg, s.threads[tid], s.locked, c))
  {
    var pc := s.threads[tid].ipc;
    if pc.IdleListsIngresses? && c.ok {
      ListingMove(cfg, name, base, s, c);
    } else if pc.Annotating? && pc.todo != [] && c.ok {
      AnnotatingMove(cfg, name, base, s, tid, c);
    } else if pc.Marking? && c.ok {
      MarkingMove(cfg, name, s.objs);
    } else if pc.Idling? {
      IdlingMove(cfg, name, base, s, tid, c);
    }
  }

  /** Scaling up the first deployment of the work list. */
  lemma WakeStep(cfg: Config, name: string, objs: Space, view: Space, todo: seq<Key>)
    requires todo != [] && todo[0] in objs && todo[0] in view && todo[0].Dep? && DeploymentOk(view[todo[0]])
    requires Wakeable(cfg, name, objs)
    requires forall k :: k in objs && IsIdled(k, objs[k]) ==> k in todo && k in view && IsIdled(k, view[k])
    ensures var objs' := objs[todo[0] := Written(name, Wake, view[todo[0]], objs[todo[0]])];
            && Wakeable(cfg, name, objs')
            && forall k :: k in objs' && IsIdled(k, objs'[k]) ==> k in todo[1..] && k in view && IsIdled(k, view[k])
  {
    var k := todo[0];
    var o := Written(name, Wake, view[k], objs[k]);
    HeadOrRest(todo);
    if IsIdled(k, view[k]) {
      WokenNotIdled(name, k, view[k], objs[k]);
    } else {
      assert o == objs[k];
    }
    DeploymentStep(cfg, name, objs, k, o);
  }

  lemma ScalingMove(cfg: Config, name: string, base: Space, s: System, tid: nat, c: Choice)
    requires Guarded(cfg, name, base, s) && Enabled(s, Move(tid, c)) && c.ok
    requires s.threads[tid].UnidleThread? && s.threads[tid].upc.Scaling? && s.threads[tid].upc.todo != []
    ensures var objs := MoveObjs(name, s, tid, c);
            Wakeable(cfg, name, objs) && Guard(cfg, name, objs, Advance(cfg, s.threads[tid], s.locked, c))
  {
    var t := s.threads[tid];
    var view, todo := t.upc.view, t.upc.todo;
    assert ThreadSound(s.objs, s.seen, t) && Guard(cfg, name, s.objs, t);
    assert Answers(view, s.objs, s.seen) && todo[0] in s.objs && todo[0].Dep?;
    assert (todo[0], view[todo[0]]) in s.seen;
    WakeStep(cfg, name, s.objs, view, todo);
  }

  lemma UnidleMove(cfg: Config, name: string, base: Space, s: System, tid: nat, c: Choice)
    requires Guarded(cfg, name, base, s) && Enabled(s, Move(tid, c)) && Orderly(cfg, name, s, Move(tid, c))
    requires s.threads[tid].UnidleThread?
    ensures var objs := MoveObjs(name, s, tid, c);
            Wakeable(cfg, name, objs) && Guard(cfg, name, objs, Advance(cfg, s.threads[tid], s.locked, c))
  {
    var t := s.threads[tid];
    var objs := MoveObjs(name, s, tid, c);
    PendingSound(s, t);
    match t.upc
    case UnidleLists =>
      if c.ok {
        forall k | k in s.objs && IsIdled(k, s.objs[k])
          ensures k in Select(c.view, c.order, Watched)
        {
          assert (k, s.objs[k]) in s.seen;
        }
      }
    case Scaling(_, todo) =>
      if todo != [] && c.ok {
        ScalingMove(cfg, name, base, s, tid, c);
      } else if todo != [] {
        HeadOrRest(todo);
      }
    case Stripping(_, _) | Unmarking =>
      assert NoneIdled(objs);
    case _ =>
  }

  // ---------------------------------------------------------------- beside a run of the same kind

  /** An idler run takes no entry from an ingress and no label from the namespace. */
  ghost predicate PathGrows(cfg: Config, name: string, objs: Space, objs': Space) {
    && objs'.Keys == objs.Keys
    && (forall k :: k in objs ==> (Selected(cfg, k, objs'[k]) <==> Selected(cfg, k, objs[k])))
    && (forall k :: k in objs && k.Ing? && Carries(name, objs[k]) ==> Carries(name, objs'[k]))
    && (Ns in objs && Has(objs[Ns].labels, Idled, "true") ==> Has(objs'[Ns].labels, Idled, "true"))
  }

  lemma IdleWriteGrows(cfg: Config, name: string, objs: Space, w: Write)
    requires CommaFree(name) && Independent(cfg.ingress) && w.key in objs && OnKind(w.op, w.key)
    requires w.op == Annotate || w.op == Mark("true") || w.op.Idle?
    ensures PathGrows(cfg, name, objs, objs[w.key := Written(name, w.op, w.snap, objs[w.key])])
  {
    var o := Written(name, w.op, w.snap, objs[w.key]);
    WrittenElsewhere(name, w.op, w.key, w.snap, objs[w.key]);
    SelectionStable(cfg.ingress, w.key, objs[w.key], o);
    if w.op == Annotate {
      AnnotatedCarries(name, w.snap, objs[w.key]);
    } else if w.op.Mark? {
      MarkedIdled(name, "true", w.snap, objs[w.key]);
    }
  }

  /** What one idler run relies on survives the writes of another. */
  lemma IdleKeepsGuard(cfg: Config, name: string, s: System, tid: nat, c: Choice, t: Thread)
    requires CommaFree(name) && Independent(cfg.ingress) && Sound(s) && Enabled(s, Move(tid, c))
    requires s.threads[tid].IdleThread? && t.IdleThread? && Guard(cfg, name, s.objs, t)
    ensures Guard(cfg, name, MoveObjs(name, s, tid, c), t)
  {
    PendingSound(s, s.threads[tid]);
    var w := Pending(s.objs, s.threads[tid]);
    if w.Some? {
      IdleWriteGrows(cfg, name, s.objs, w.value);
    }
    GuardGrows(cfg, name, s.objs, MoveObjs(name, s, tid, c), t);
  }

  lemma GuardGrows(cfg: Config, name: string, objs: Space, objs': Space, t: Thread)
    requires objs' == objs || PathGrows(cfg, name, objs, objs')
    requires t.IdleThread? && Guard(cfg, name, objs, t)
    ensures Guard(cfg, name, objs', t)
  {
  }

  /** What one Unidle relies on survives the writes of another: they leave no more deployments idled. */
  lemma UnidleKeepsGuard(cfg: Config, name: string, s: System, tid: nat, c: Choice, t: Thread)
    requires Sound(s) && Enabled(s, Move(tid, c))
    requires s.threads[tid].UnidleThread? && t.UnidleThread? && Guard(cfg, name, s.objs, t)
    ensures Guard(cfg, name, MoveObjs(name, s, tid, c), t)
  {
    PendingSound(s, s.threads[tid]);
    var w := Pending(s.objs, s.threads[tid]);
    if w.Some? {
      UnidleWriteShrinks(name, w.value, s.objs[w.value.key]);
    }
    GuardShrinks(cfg, name, s.objs, MoveObjs(name, s, tid, c), t);
  }

  lemma UnidleWriteShrinks(name: string, w: Write, o: Object)
    requires OnKind(w.op, w.key) && (w.op == Wake || w.op == Strip || w.op == Mark("false"))
    ensures IsIdled(w.key, Written(name, w.op, w.snap, o)) ==> IsIdled(w.key, o)
  {
    if w.op == Wake && WakePatch(w.snap).Some? {
      assert WakePatch(w.snap).value.labels[Idled] == Some("false");
    }
  }

  lemma GuardShrinks(cfg: Config, name: string, objs: Space, objs': Space, t: Thread)
    requires objs'.Keys == objs.Keys
    requires forall k :: k in objs && IsIdled(k, objs'[k]) ==> IsIdled(k, objs[k])
    requires t.UnidleThread? && Guard(cfg, name, objs, t)
    ensures Guard(cfg, name, objs', t)
  {
  }

  /** Any other thread, beside a move of `tid`. */
  lemma OtherGuarded(cfg: Config, name: string, s: System, tid: nat, c: Choice, u: Thread)
    requires CommaFree(name) && Independent(cfg.ingress) && Sound(s) && Enabled(s, Move(tid, c))
    requires Guard(cfg, name, s.objs, u)
    requires Live(s.threads[tid]) && Live(u) ==> s.threads[tid].IdleThread? == u.IdleThread?
    ensures Guard(cfg, name, MoveObjs(name, s, tid, c), u)
  {
    var t := s.threads[tid];
    if !Live(u) {
      NotLive(cfg, name, MoveObjs(name, s, tid, c), u);
    } else if t.IdleThread? && Live(t) {
      IdleKeepsGuard(cfg, name, s, tid, c, u);
    } else if t.UnidleThread? && Live(t) {
      UnidleKeepsGuard(cfg, name, s, tid, c, u);
    } else if t.ClearThread? && !t.cleared {
      ClearStep(cfg, name, s.objs, t.trigger, u);
    }
  }

  lemma MoveGuarded(cfg: Config, name: string, base: Space, s: System, tid: nat, c: Choice)
    requires CommaFree(name) && Independent(cfg.ingress) && !cfg.skipIngressPatch
    requires Guarded(cfg, name, base, s) && Enabled(s, Move(tid, c)) && Orderly(cfg, name, s, Move(tid, c))
    ensures var objs := MoveObjs(name, s, tid, c);
            && Wakeable(cfg, name, objs)
            && Guard(cfg, name, objs, Advance(cfg, s.threads[tid], s.locked, c))
            && (forall i :: 0 <= i < |s.threads| && i != tid ==> Guard(cfg, name, objs, s.threads[i]))
  {
    var t := s.threads[tid];
    if t.IdleThread? {
      IdleMove(cfg, name, base, s, tid, c);
    } else if t.UnidleThread? {
      UnidleMove(cfg, name, base, s, tid, c);
    } else if t.ClearThread? && !t.cleared {
      ClearStep(cfg, name, s.objs, t.trigger, t);
    }
    forall i | 0 <= i < |s.threads| && i != tid
      ensures Guard(cfg, name, MoveObjs(name, s, tid, c), s.threads[i])
    {
      OtherGuarded(cfg, name, s, tid, c, s.threads[i]);
    }
  }

  lemma StepGuarded(cfg: Config, name: string, base: Space, s: System, e: Event)
    requires CommaFree(name) && Independent(cfg.ingress) && !cfg.skipIngressPatch
    requires Guarded(cfg, name, base, s) && Enabled(s, e) && Orderly(cfg, name, s, e)
    ensures Guarded(cfg, name, base, Next(cfg, name, s, e))
  {
    NextSound(cfg, name, s, e);
    NextKnown(cfg, name, base, s, e);
    if e.Move? {
      MoveGuarded(cfg, name, base, s, e.tid, e.choice);
    }
  }

  lemma {:induction false} RunGuarded(cfg: Config, name: string, base: Space, s: System, events: seq<Event>)
    requires CommaFree(name) && Independent(cfg.ingress) && !cfg.skipIngressPatch
    requires Guarded(cfg, name, base, s) && ValidRun(cfg, name, s, events) && OrderlyRun(cfg, name, s, events)
    ensures Guarded(cfg, name, base, Run(cfg, name, s, events))
    decreases |events|
  {
    if events != [] {
      StepGuarded(cfg, name, base, s, events[0]);
      RunGuarded(cfg, name, base, Next(cfg, name, s, events[0]), events[1..]);
    }
  }

  /** From a namespace that can be woken, every orderly run - complete, cut short or crashed at any
      step - leads to a namespace that can be woken. */
  lemma WakePathKept(cfg: Config, name: string, base: Space, events: seq<Event>)
    requires CommaFree(name) && Independent(cfg.ingress) && !cfg.skipIngressPatch
    requires Ns in base && Wakeable(cfg, name, base)
    requires forall k :: k in base && k.Dep? ==> DeploymentOk(base[k])
    requires ValidRun(cfg, name, Boot(base), events) && OrderlyRun(cfg, name, Boot(base), events)
    ensures Wakeable(cfg, name, Run(cfg, name, Boot(base), events).objs)
  {
    RunGuarded(cfg, name, base, Boot(base), events);
  }
}
