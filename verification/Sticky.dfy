/** Force-scaling sticks: requests do not bring a force-scaled environment back (README.md:22-23). */
module Sticky {
  import opened Clusters
  import opened Patches
  import opened Idlers
  import opened Protocol

  /** An Unidle that has yet to list or scale up deployments. Later it waits for pods, strips ingresses,
      unmarks the namespace and unlocks it. */
  predicate MayWake(pc: UnidlePc) {
    pc == UnidleLists || (pc.Scaling? && pc.todo != [])
  }

  /** No run of Unidle may still wake a deployment, and no request is on the way to start one. Runs that
      are past that point, or finished, may be there. */
  ghost predicate Held(s: System) {
    forall i :: 0 <= i < |s.threads| ==>
      match s.threads[i]
      case UnidleThread(pc, _) => !MayWake(pc)
      case RequestThread(pc) => pc == Checking || pc == Answered
      case _ => true
  }

  /** All runs of Unidle have returned. */
  ghost predicate AllReturned(s: System) {
    forall i :: 0 <= i < |s.threads| && s.threads[i].UnidleThread? ==> s.threads[i].upc == UnidleDone
  }

  /** `d` is force-scaled now, whatever it was before; no replica count is negative. */
  ghost predicate Stuck(s: System, d: Key) {
    && Sound(s) && Held(s)
    && d.Dep? && d in s.objs && Has(s.objs[d].labels, ForceScaled, "true")
    && forall k :: k in s.objs ==> s.objs[k].replicas >= 0
  }

  /** Requests, idler runs and label patches, which may fail, crash or work from old versions. */
  predicate Ordinary(e: Event) {
    match e
    case Start(t) => !t.UnidleThread?
    case Admit => false
    case _ => true
  }

  /** A request that asks whether the namespace is force-scaled is answered, and shown that it is. */
  ghost predicate Informed(s: System, e: Event)
    requires Enabled(s, e)
  {
    e.Move? && s.threads[e.tid] == RequestThread(Checking) ==>
        e.choice.ok && ForceScaledIn(e.choice.view, e.choice.order)
  }

  ghost predicate InformedRun(cfg: Config, name: string, s: System, events: seq<Event>)
    requires ValidRun(cfg, name, s, events)
    decreases |events|
  {
    events == [] || (Informed(s, events[0]) && InformedRun(cfg, name, Next(cfg, name, s, events[0]), events[1..]))
  }

  ghost predicate AlwaysHeld(cfg: Config, name: string, s: System, events: seq<Event>)
    requires ValidRun(cfg, name, s, events)
    decreases |events|
  {
    Held(s) && (events == [] || AlwaysHeld(cfg, name, Next(cfg, name, s, events[0]), events[1..]))
  }

  // ---------------------------------------------------------------- freshness

  /** All versions of `d` seen so far are force-scaled, except for those in `past`. */
  ghost predicate ScaledSince(s: System, d: Key, past: set<(Key, Object)>) {
    forall o :: (d, o) in s.seen && (d, o) !in past ==> Has(o.labels, ForceScaled, "true")
  }

  /** Every version of `d` so far but the present one. */
  function Older(s: System, d: Key): set<(Key, Object)>
    requires d in s.objs
  {
    s.seen - {(d, s.objs[d])}
  }

  /** A request that asks whether the namespace is force-scaled is answered, and not from the past. */
  ghost predicate Recent(s: System, d: Key, past: set<(Key, Object)>, e: Event)
    requires Enabled(s, e)
  {
    e.Move? && s.threads[e.tid] == RequestThread(Checking) ==>
      e.choice.ok && (d in e.choice.view ==> (d, e.choice.view[d]) !in past)
  }

  ghost predicate RecentRun(cfg: Config, name: string, s: System, d: Key, past: set<(Key, Object)>, events: seq<Event>)
    requires ValidRun(cfg, name, s, events)
    decreases |events|
  {
    events == []
    || (Recent(s, d, past, events[0]) && RecentRun(cfg, name, Next(cfg, name, s, events[0]), d, past, events[1..]))
  }

  /** As long as the label has stayed, an answer from after `past` shows it. */
  lemma RecentInforms(s: System, d: Key, past: set<(Key, Object)>, e: Event)
    requires d.Dep? && d in s.objs && ScaledSince(s, d, past) && Enabled(s, e) && Recent(s, d, past, e)
    ensures Informed(s, e)
  {
    if e.Move? && s.threads[e.tid] == RequestThread(Checking) {
      var c := e.choice;
      assert (d, c.view[d]) in s.seen;
      assert d in Select(c.view, c.order, Scaled);
    }
  }

  /** Idling adds labels and takes replicas away. */
  lemma IdleSticks(name: string, op: Op, k: Key, d: Key, snap: Object, o: Object)
    requires OnKind(op, k) && op != Wake && d.Dep? && o.replicas >= 0
    ensures k == d && Has(o.labels, ForceScaled, "true") ==> Has(Written(name, op, snap, o).labels, ForceScaled, "true")
    ensures 0 <= Written(name, op, snap, o).replicas <= o.replicas
  {
    match op
    case Idle(now, fi, fs) =>
      IdleMarks(name, snap, o, now, fi, fs);
      IdleWritten(name, snap, o, now, fi, fs);
    case _ =>
  }

  lemma StepSticks(cfg: Config, name: string, s: System, d: Key, past: set<(Key, Object)>, e: Event)
    requires Stuck(s, d) && ScaledSince(s, d, past) && Enabled(s, e) && Ordinary(e) && Informed(s, e)
    ensures var s' := Next(cfg, name, s, e);
            && Stuck(s', d) && ScaledSince(s', d, past)
            && (s'.locked ==> s.locked) && (AllReturned(s) ==> AllReturned(s') && s'.locked == s.locked)
            && forall k :: k in s.objs ==> s'.objs[k].replicas <= s.objs[k].replicas
  {
    NextSound(cfg, name, s, e);
    if e.Move? {
      MoveSticks(cfg, name, s, d, e.tid, e.choice);
      MoveHolds(cfg, name, s, e.tid, e.choice);
    }
  }

  lemma MoveSticks(cfg: Config, name: string, s: System, d: Key, tid: nat, c: Choice)
    requires Stuck(s, d) && Enabled(s, Move(tid, c))
    ensures var objs := MoveObjs(name, s, tid, c);
            && objs.Keys == s.objs.Keys
            && Has(objs[d].labels, ForceScaled, "true")
            && forall k :: k in s.objs ==> 0 <= objs[k].replicas <= s.objs[k].replicas
  {
    var t := s.threads[tid];
    PendingSound(s, t);
    var w := Pending(s.objs, t);
    if w.Some? {
      IdleSticks(name, w.value.op, w.value.key, d, w.value.snap, s.objs[w.value.key]);
    }
  }

  lemma MoveHolds(cfg: Config, name: string, s: System, tid: nat, c: Choice)
    requires Held(s) && Enabled(s, Move(tid, c))
    ensures var s' := Next(cfg, name, s, Move(tid, c));
            && (Held(s') <==> Informed(s, Move(tid, c)))
            && (s'.locked ==> s.locked) && (AllReturned(s) ==> AllReturned(s') && s'.locked == s.locked)
  {
    var s' := Next(cfg, name, s, Move(tid, c));
    assert Spawned(s.threads[tid]) == [];
    assert s'.threads[tid] == Advance(cfg, s.threads[tid], s.locked, c);
  }

  /** However many requests arrive and whatever the idler does beside them, nothing but a stale or failed
      answer to a request brings a force-scaled environment back: if every request's List shows `d` in a
      version from after `past`, where all versions are force-scaled, then every request is told so, no run
      of Unidle starts, the label stays, and no replica count ever rises. All other Lists may show the past,
      and a run of Unidle that is past its scaling up may finish its work and release the lock. */
  lemma {:induction false} ForceScaleSticks(cfg: Config, name: string, s: System, d: Key, past: set<(Key, Object)>,
                                            events: seq<Event>)
    requires Stuck(s, d) && ScaledSince(s, d, past)
    requires ValidRun(cfg, name, s, events) && forall e :: e in events ==> Ordinary(e)
    requires RecentRun(cfg, name, s, d, past, events)
    ensures InformedRun(cfg, name, s, events) && AlwaysHeld(cfg, name, s, events)
    ensures var after := Run(cfg, name, s, events);
            && Stuck(after, d)
            && (after.locked ==> s.locked) && (AllReturned(s) ==> after.locked == s.locked)
            && forall k :: k in s.objs ==> k in after.objs && after.objs[k].replicas <= s.objs[k].replicas
    decreases |events|
  {
    if events != [] {
      assert events[0] in events;
      RecentInforms(s, d, past, events[0]);
      StepSticks(cfg, name, s, d, past, events[0]);
      ForceScaleSticks(cfg, name, Next(cfg, name, s, events[0]), d, past, events[1..]);
    }
  }
}
