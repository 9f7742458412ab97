/** The way back up at single steps: in any interleaving, from stale versions and with any failures,
    exactly which writes take it. */
module StepPath {
  import opened CommaList
  import opened Clusters
  import opened Patches
  import opened Idlers
  import opened Protocol
  import opened Safety
  import opened WakePath
  import opened UnidlePath

  /** A write that takes the way back: a deployment is idled while the path is not open; or, while some
      deployment is idled, a strip takes an entry from a selected ingress or the namespace of one is
      unmarked. */
  ghost predicate WriteBreaks(cfg: Config, name: string, objs: Space, w: Write) {
    match w.op
    case Idle(_, _, _) => !PathOpen(cfg, name, objs)
    case Strip => !NoneIdled(objs) && SelectedIn(cfg, objs, w.key) && StripTakes(name, w.snap)
    case Mark(value) => !NoneIdled(objs) && value != "true" && exists k :: SelectedIn(cfg, objs, k)
    case _ => false
  }

  ghost predicate Breaks(cfg: Config, name: string, s: System, e: Event) {
    && e.Move? && e.tid < |s.threads| && e.choice.ok
    && Pending(s.objs, s.threads[e.tid]).Some?
    && WriteBreaks(cfg, name, s.objs, Pending(s.objs, s.threads[e.tid]).value)
  }

  ghost predicate NeverBreaks(cfg: Config, name: string, s: System, events: seq<Event>)
    requires ValidRun(cfg, name, s, events)
    decreases |events|
  {
    events == []
    || (!Breaks(cfg, name, s, events[0]) && NeverBreaks(cfg, name, Next(cfg, name, s, events[0]), events[1..]))
  }

  /** There is a way back up before and after every step. */
  ghost predicate EverWakeable(cfg: Config, name: string, s: System, events: seq<Event>)
    requires ValidRun(cfg, name, s, events)
    decreases |events|
  {
    Wakeable(cfg, name, s.objs)
    && (events == [] || EverWakeable(cfg, name, Next(cfg, name, s, events[0]), events[1..]))
  }

  // ---------------------------------------------------------------- one write of each kind

  lemma IdleBreaksIff(cfg: Config, name: string, objs: Space, w: Write)
    requires w.op.Idle? && w.key in objs && w.key.Dep?
    ensures var o := Written(name, w.op, w.snap, objs[w.key]);
            Wakeable(cfg, name, objs[w.key := o]) <==> PathOpen(cfg, name, objs)
  {
    var o := Written(name, w.op, w.snap, objs[w.key]);
    IdleMarks(name, w.snap, objs[w.key], w.op.now, w.op.forceIdle, w.op.forceScale);
    assert IsIdled(w.key, objs[w.key := o][w.key]);
    DeploymentStep(cfg, name, objs, w.key, o);
    DeploymentStep(cfg, name, objs[w.key := o], w.key, objs[w.key]);
    assert objs[w.key := o][w.key := objs[w.key]] == objs;
  }

  lemma StripBreaksIff(cfg: Config, name: string, objs: Space, w: Write)
    requires Independent(cfg.ingress) && w.op == Strip && w.key in objs && w.key.Ing? && PathOpen(cfg, name, objs)
    ensures var o := Written(name, Strip, w.snap, objs[w.key]);
            PathOpen(cfg, name, objs[w.key := o]) <==> !(SelectedIn(cfg, objs, w.key) && StripTakes(name, w.snap))
  {
    var o := Written(name, Strip, w.snap, objs[w.key]);
    WrittenElsewhere(name, Strip, w.key, w.snap, objs[w.key]);
    SelectionStable(cfg.ingress, w.key, objs[w.key], o);
    CarriesAfterStrip(name, w.snap, objs[w.key]);
    if SelectedIn(cfg, objs, w.key) && StripTakes(name, w.snap) {
      assert !Carries(name, objs[w.key := o][w.key]);
    } else {
      PathKept(cfg, name, objs, objs[w.key := o]);
    }
  }

  lemma MarkBreaksIff(cfg: Config, name: string, objs: Space, w: Write)
    requires w.op.Mark? && w.key == Ns && Ns in objs && PathOpen(cfg, name, objs)
    ensures var o := Written(name, w.op, w.snap, objs[Ns]);
            PathOpen(cfg, name, objs[Ns := o]) <==> !(w.op.value != "true" && exists k :: SelectedIn(cfg, objs, k))
  {
    var o := Written(name, w.op, w.snap, objs[Ns]);
    var objs' := objs[Ns := o];
    MarkedIdled(name, w.op.value, w.snap, objs[Ns]);
    forall k | k in objs' && Selected(cfg, k, objs'[k])
      ensures Carries(name, objs'[k]) && SelectedIn(cfg, objs, k)
    {
      assert objs'[k] == objs[k];
    }
    if exists k :: SelectedIn(cfg, objs, k) {
      var k :| SelectedIn(cfg, objs, k);
      assert SelectedIn(cfg, objs', k);
    }
  }

  /** Strips and marks leave the deployments alone. */
  lemma SameIdled(name: string, objs: Space, w: Write)
    requires w.key in objs && !w.key.Dep?
    ensures NoneIdled(objs[w.key := Written(name, w.op, w.snap, objs[w.key])]) <==> NoneIdled(objs)
  {
    var objs' := objs[w.key := Written(name, w.op, w.snap, objs[w.key])];
    assert forall k :: k in objs && k.Dep? ==> objs'[k] == objs[k];
  }

  lemma WakeKeepsPath(cfg: Config, name: string, objs: Space, w: Write)
    requires w.op == Wake && w.key in objs && w.key.Dep? && Wakeable(cfg, name, objs)
    ensures Wakeable(cfg, name, objs[w.key := Written(name, Wake, w.snap, objs[w.key])])
  {
    UnidleWriteShrinks(name, w, objs[w.key]);
    DeploymentStep(cfg, name, objs, w.key, Written(name, Wake, w.snap, objs[w.key]));
  }

  lemma ClearKeepsPath(cfg: Config, name: string, objs: Space, w: Write)
    requires w.op.Clear? && OnKind(w.op, w.key) && w.key in objs && Wakeable(cfg, name, objs)
    ensures Wakeable(cfg, name, objs[w.key := Written(name, w.op, w.snap, objs[w.key])])
  {
    SameIdled(name, objs, w);
    assert Idled !in ClearPatch(w.op.trigger).labels;
    if PathOpen(cfg, name, objs) {
      PathKept(cfg, name, objs, objs[w.key := Written(name, w.op, w.snap, objs[w.key])]);
    }
  }

  lemma AnnotateKeepsPath(cfg: Config, name: string, objs: Space, w: Write)
    requires CommaFree(name) && Independent(cfg.ingress)
    requires w.op == Annotate && w.key in objs && w.key.Ing? && Wakeable(cfg, name, objs)
    ensures Wakeable(cfg, name, objs[w.key := Written(name, Annotate, w.snap, objs[w.key])])
  {
    SameIdled(name, objs, w);
    IdleWriteGrows(cfg, name, objs, w);
    if PathOpen(cfg, name, objs) {
      PathKept(cfg, name, objs, objs[w.key := Written(name, Annotate, w.snap, objs[w.key])]);
    }
  }

  lemma WriteBreaksIff(cfg: Config, name: string, objs: Space, w: Write)
    requires CommaFree(name) && Independent(cfg.ingress)
    requires w.key in objs && OnKind(w.op, w.key) && Wakeable(cfg, name, objs)
    ensures Wakeable(cfg, name, objs[w.key := Written(name, w.op, w.snap, objs[w.key])]) <==>
              !WriteBreaks(cfg, name, objs, w)
  {
    match w.op
    case Idle(_, _, _) => IdleBreaksIff(cfg, name, objs, w);
    case Strip =>
      SameIdled(name, objs, w);
      if !NoneIdled(objs) {
        StripBreaksIff(cfg, name, objs, w);
      }
    case Mark(_) =>
      SameIdled(name, objs, w);
      if !NoneIdled(objs) {
        MarkBreaksIff(cfg, name, objs, w);
      }
    case Wake => WakeKeepsPath(cfg, name, objs, w);
    case Annotate => AnnotateKeepsPath(cfg, name, objs, w);
    case Clear(_) => ClearKeepsPath(cfg, name, objs, w);
  }

  // ---------------------------------------------------------------- whole runs

  lemma StepBreaksIff(cfg: Config, name: string, s: System, e: Event)
    requires CommaFree(name) && Independent(cfg.ingress)
    requires Sound(s) && Enabled(s, e) && Wakeable(cfg, name, s.objs)
    ensures Wakeable(cfg, name, Next(cfg, name, s, e).objs) <==> !Breaks(cfg, name, s, e)
  {
    if e.Move? {
      PendingSound(s, s.threads[e.tid]);
      if Pending(s.objs, s.threads[e.tid]).Some? && e.choice.ok {
        WriteBreaksIff(cfg, name, s.objs, Pending(s.objs, s.threads[e.tid]).value);
      }
    }
  }

  /** In every run - any interleaving of idles, Unidles, requests and Reconciles, from versions of any
      age, with any failures and crashes - there is a way back up at every step if and only if no write
      takes it: no deployment is idled while the path is not open, and none is idled while an entry is
      taken from a selected ingress or the namespace of one unmarked. */
  lemma {:induction false} RunKeepsPathIff(cfg: Config, name: string, s: System, events: seq<Event>)
    requires CommaFree(name) && Independent(cfg.ingress)
    requires Sound(s) && ValidRun(cfg, name, s, events) && Wakeable(cfg, name, s.objs)
    ensures EverWakeable(cfg, name, s, events) <==> NeverBreaks(cfg, name, s, events)
    decreases |events|
  {
    if events != [] {
      var next := Next(cfg, name, s, events[0]);
      NextSound(cfg, name, s, events[0]);
      StepBreaksIff(cfg, name, s, events[0]);
      if Wakeable(cfg, name, next.objs) {
        RunKeepsPathIff(cfg, name, next, events[1..]);
      }
    }
  }
}
