/** What every interleaving keeps, object by object: the users' list entries, the state a wake-up
    needs on a deployment, and everything the controller does not own. */
module Safety {
  import opened Options
  import opened CommaList
  import opened Hyphens
  import opened Decimal
  import opened Clusters
  import opened Patches
  import opened Idlers
  import opened Unidlers
  import opened Protocol
  import opened UnidlerFacts

  /** The controller's own entry in each of the two annotations it edits. */
  predicate OwnEntry(name: string, t: Tag, code: string) {
    (t == HttpErrors && code == "503") || (t == Middlewares && code == Middleware(name))
  }

  lemma OwnEntryIsOne(name: string, t: Tag, code: string)
    requires CommaFree(name) && OwnEntry(name, t, code)
    ensures CommaFree(code) && code != ""
  {
    MiddlewareIsOneEntry(name);
  }

  // ---------------------------------------------------------------- ingress lists

  /** The users' entries of the annotation `t`. */
  function UserEntries(o: Object, t: Tag, code: string): seq<string> {
    Kept(Annotation(o, t), code)
  }

  lemma AnnotateKeepsEntries(name: string, snap: Object, o: Object, t: Tag, code: string)
    requires CommaFree(name) && OwnEntry(name, t, code)
    ensures UserEntries(Written(name, Annotate, snap, o), t, code) == UserEntries(snap, t, code)
    ensures Tidy(Annotation(snap, t)) ==> Tidy(Annotation(Written(name, Annotate, snap, o), t))
  {
    OwnEntryIsOne(name, t, code);
    AnnotateWritten(name, snap, o);
    AddKeeps(Annotation(snap, t), code);
    if Tidy(Annotation(snap, t)) {
      AddTidy(Annotation(snap, t), code);
    }
  }

  /** The value a strip leaves has the entries of the snapshot or of the object it was sent to. */
  lemma StripKeepsEntries(name: string, snap: Object, o: Object, t: Tag, code: string)
    requires CommaFree(name) && OwnEntry(name, t, code)
    requires UserEntries(snap, t, code) == UserEntries(o, t, code)
    ensures UserEntries(Written(name, Strip, snap, o), t, code) == UserEntries(o, t, code)
    ensures Tidy(Annotation(snap, t)) && Tidy(Annotation(o, t)) ==> Tidy(Annotation(Written(name, Strip, snap, o), t))
  {
    OwnEntryIsOne(name, t, code);
    if StripPatch(name, snap).Some? {
      StripMemberWritten(name, snap, o, t, code);
      RemoveKeeps(Annotation(snap, t), code);
      if Tidy(Annotation(snap, t)) {
        RemoveLeavesKept(Annotation(snap, t), code);
      }
    }
  }

  /** Same users' entries as at the start, and still without empty entries if there were none. */
  ghost predicate ListsKept(name: string, base: Space, k: Key, o: Object) {
    k.Ing? && k in base ==>
      forall t, code :: OwnEntry(name, t, code) ==>
        && UserEntries(o, t, code) == UserEntries(base[k], t, code)
        && (Tidy(Annotation(base[k], t)) ==> Tidy(Annotation(o, t)))
  }

  lemma ListsPreserved(name: string, base: Space, op: Op, k: Key, snap: Object, o: Object)
    requires CommaFree(name) && OnKind(op, k)
    requires ListsKept(name, base, k, snap) && ListsKept(name, base, k, o)
    ensures ListsKept(name, base, k, Written(name, op, snap, o))
  {
    if k.Ing? && k in base {
      forall t, code | OwnEntry(name, t, code)
        ensures UserEntries(Written(name, op, snap, o), t, code) == UserEntries(base[k], t, code)
        ensures Tidy(Annotation(base[k], t)) ==> Tidy(Annotation(Written(name, op, snap, o), t))
      {
        if op == Annotate {
          AnnotateKeepsEntries(name, snap, o, t, code);
        } else {
          StripKeepsEntries(name, snap, o, t, code);
        }
      }
    }
  }

  /** Conservation: under every interleaving of idles and unidles, from stale snapshots and with any
      patches failing, no version of any ingress ever loses, gains or reorders a user's entry. */
  lemma IngressListsConserved(cfg: Config, name: string, base: Space, events: seq<Event>)
    requires CommaFree(name) && Ns in base && ValidRun(cfg, name, Boot(base), events)
    ensures forall k, o :: (k, o) in Run(cfg, name, Boot(base), events).seen ==> ListsKept(name, base, k, o)
  {
    var p: ObjectProperty := (k, o) => ListsKept(name, base, k, o);
    forall op, k, snap, o | OnKind(op, k) && p(k, snap) && p(k, o)
      ensures p(k, Written(name, op, snap, o))
    {
      ListsPreserved(name, base, op, k, snap, o);
    }
    assert forall op :: Preserves(p, name, op);
    RunKeeps(p, cfg, name, Boot(base), events);
    var s := Run(cfg, name, Boot(base), events);
    forall k, o | (k, o) in s.seen
      ensures ListsKept(name, base, k, o)
    {
      assert p(k, o);
    }
  }

  /** A strip of the current object leaves exactly the users' entries. */
  lemma StripLeavesUserEntries(name: string, o: Object, t: Tag, code: string)
    requires CommaFree(name) && OwnEntry(name, t, code) && Tidy(Annotation(o, t))
    ensures Annotation(Written(name, Strip, o, o), t) == Join(UserEntries(o, t, code))
  {
    OwnEntryIsOne(name, t, code);
    RemoveLeavesKept(Annotation(o, t), code);
    if StripPatch(name, o).Some? {
      StripMemberWritten(name, o, o, t, code);
    }
    if t !in o.annotations {
      assert Without([""], code) == [""];
      assert Kept("", code) == [];
    }
  }

  /** After any run, one undisturbed and successful Unidle leaves every ingress with exactly the
      entries its users gave it at the start. */
  lemma UnidleRestoresLists(cfg: Config, name: string, base: Space, events: seq<Event>, env: Env,
                            k: Key, t: Tag, code: string)
    requires CommaFree(name) && Ns in base && ValidRun(cfg, name, Boot(base), events)
    requires k in base && k.Ing? && OwnEntry(name, t, code) && Tidy(Annotation(base[k], t))
    requires var objs := Run(cfg, name, Boot(base), events).objs;
             WellFormed(objs, env) && env.listsDeployments && env.listsIngresses && k !in env.faults
    ensures var after := Unidled(name, Run(cfg, name, Boot(base), events).objs, env);
            k in after && Annotation(after[k], t) == Join(UserEntries(base[k], t, code))
  {
    IngressListsConserved(cfg, name, base, events);
    RunSound(cfg, name, Boot(base), events);
    var s := Run(cfg, name, Boot(base), events);
    assert (k, s.objs[k]) in s.seen;
    assert ListsKept(name, base, k, s.objs[k]);
    StripLeavesUserEntries(name, s.objs[k], t, code);
    UnidledIngress(name, s.objs, env, k);
  }

  // ---------------------------------------------------------------- deployments

  /** The recorded count parses to a positive int32. */
  predicate Restorable(o: Object) {
    UnidleReplicas in o.annotations
    && Atoi(o.annotations[UnidleReplicas]).Number?
    && 1 <= Atoi(o.annotations[UnidleReplicas]).n <= MAX_INT32
  }

  /** A deployment labelled idled is watched, scaled to 0, and knows what to come back to. */
  predicate DeploymentOk(o: Object) {
    && 0 <= o.replicas <= MAX_INT32
    && (Has(o.labels, Idled, "true") ==> Has(o.labels, Watch, "true") && o.replicas == 0 && Restorable(o))
  }

  lemma DeploymentPreserved(name: string, op: Op, k: Key, snap: Object, o: Object)
    requires OnKind(op, k) && k.Dep? && DeploymentOk(snap) && DeploymentOk(o)
    ensures DeploymentOk(Written(name, op, snap, o))
  {
    match op
    case Idle(now, fi, fs) =>
      var p := IdlePatch(snap, now, fi, fs);
      AtoiFormatInt(IdleReplicas(snap));
      IdleMarks(name, snap, o, now, fi, fs);
      assert p.annotations[UnidleReplicas] == Some(FormatInt(IdleReplicas(snap)));
      IdleWritten(name, snap, o, now, fi, fs);
    case Wake =>
      if WakePatch(snap).Some? && Accepted(WakePatch(snap).value) {
        assert WakePatch(snap).value.labels[Idled] == Some("false");
      }
  }

  /** Under every interleaving, stale snapshot and failure, a deployment labelled idled can be found
      and restored by the next Unidle. */
  lemma IdledIsRestorable(cfg: Config, name: string, base: Space, events: seq<Event>)
    requires Ns in base && ValidRun(cfg, name, Boot(base), events)
    requires forall k :: k in base && k.Dep? ==> DeploymentOk(base[k])
    ensures forall k, o :: (k, o) in Run(cfg, name, Boot(base), events).seen && k.Dep? ==> DeploymentOk(o)
  {
    var p: ObjectProperty := (k: Key, o) => k.Dep? ==> DeploymentOk(o);
    forall op, k, snap, o | OnKind(op, k) && p(k, snap) && p(k, o)
      ensures p(k, Written(name, op, snap, o))
    {
      if k.Dep? {
        DeploymentPreserved(name, op, k, snap, o);
      }
    }
    assert forall op :: Preserves(p, name, op);
    RunKeeps(p, cfg, name, Boot(base), events);
    var s := Run(cfg, name, Boot(base), events);
    forall k, o | (k, o) in s.seen && k.Dep?
      ensures DeploymentOk(o)
    {
      assert p(k, o);
    }
  }

  /** The counts a deployment can have or remember: 0 or 1, the one it started with, and the one it
      remembered at the start. */
  predicate KnownCounts(b: Object, o: Object) {
    && o.replicas in {0, 1, b.replicas, WakeReplicas(b)}
    && WakeReplicas(o) in {1, b.replicas, WakeReplicas(b)}
  }

  lemma CountsPreserved(name: string, op: Op, k: Key, b: Object, snap: Object, o: Object)
    requires OnKind(op, k) && k.Dep? && 0 <= b.replicas <= MAX_INT32 && KnownCounts(b, snap) && KnownCounts(b, o)
    ensures KnownCounts(b, Written(name, op, snap, o))
  {
    match op
    case Idle(now, fi, fs) =>
      RecordedCount(name, snap, o, now, fi, fs);
    case Wake =>
      if WakePatch(snap).Some? {
        assert UnidleReplicas !in WakePatch(snap).value.annotations;
      }
  }

  /** The count that an idle leaves to come back to is the one its snapshot shows, never 0. */
  lemma RecordedCount(name: string, snap: Object, o: Object, now: string, fi: bool, fs: bool)
    requires snap.replicas <= MAX_INT64
    ensures var idled := Written(name, Idle(now, fi, fs), snap, o);
            idled.replicas == 0 && WakeReplicas(idled) == IdleReplicas(snap)
  {
    AtoiFormatInt(IdleReplicas(snap));
    IdleWritten(name, snap, o, now, fi, fs);
    assert IdlePatch(snap, now, fi, fs).annotations[UnidleReplicas] == Some(FormatInt(IdleReplicas(snap)));
  }

  /** Under every interleaving, stale snapshot and failure no count is made up: every version of a
      deployment has, and would come back to, a count from its start, or 0 or 1. */
  lemma CountsConserved(cfg: Config, name: string, base: Space, events: seq<Event>)
    requires Ns in base && ValidRun(cfg, name, Boot(base), events)
    requires forall k :: k in base && k.Dep? ==> 0 <= base[k].replicas <= MAX_INT32
    ensures forall k, o :: (k, o) in Run(cfg, name, Boot(base), events).seen && k.Dep? && k in base ==>
              KnownCounts(base[k], o)
  {
    var p: ObjectProperty := (k: Key, o) => k.Dep? && k in base ==> KnownCounts(base[k], o);
    forall op, k, snap, o | OnKind(op, k) && p(k, snap) && p(k, o)
      ensures p(k, Written(name, op, snap, o))
    {
      if k.Dep? && k in base {
        CountsPreserved(name, op, k, base[k], snap, o);
      }
    }
    assert forall op :: Preserves(p, name, op);
    RunKeeps(p, cfg, name, Boot(base), events);
    var s := Run(cfg, name, Boot(base), events);
    forall k, o | (k, o) in s.seen && k.Dep? && k in base
      ensures KnownCounts(base[k], o)
    {
      assert p(k, o);
    }
  }

  // ---------------------------------------------------------------- the frame

  function OwnedLabels(k: Key): set<Tag> {
    match k
    case Dep(_) => {Idled, Watch, ForceIdled, ForceScaled}
    case Ing(_) => {Idled}
    case Ns => {Idled, ForceIdled, ForceScaled, UnidleNow}
  }

  function OwnedAnnotations(k: Key): set<Tag> {
    match k
    case Dep(_) => {IdledAt, UnidleReplicas}
    case Ing(_) => {IdledAt, HttpErrors, Middlewares}
    case Ns => {}
  }

  /** `o` differs from `b` only where the controller may write. */
  ghost predicate SameElsewhere(k: Key, b: Object, o: Object) {
    && (forall t :: t !in OwnedLabels(k) ==> Get(o.labels, t) == Get(b.labels, t))
    && (forall t :: t !in OwnedAnnotations(k) ==> Get(o.annotations, t) == Get(b.annotations, t))
    && (!k.Dep? ==> o.replicas == b.replicas)
  }

  lemma PatchStaysInside(name: string, op: Op, k: Key, snap: Object)
    requires OnKind(op, k) && PatchFor(name, op, snap).Some?
    ensures var p := PatchFor(name, op, snap).value;
            && p.labels.Keys <= OwnedLabels(k)
            && p.annotations.Keys <= OwnedAnnotations(k)
            && (!k.Dep? ==> p.replicas.None?)
  {
  }

  lemma WrittenElsewhere(name: string, op: Op, k: Key, snap: Object, o: Object)
    requires OnKind(op, k)
    ensures SameElsewhere(k, o, Written(name, op, snap, o))
  {
    if PatchFor(name, op, snap).Some? {
      PatchStaysInside(name, op, k, snap);
    }
  }

  lemma SameElsewhereTransitive(k: Key, a: Object, b: Object, c: Object)
    requires SameElsewhere(k, a, b) && SameElsewhere(k, b, c)
    ensures SameElsewhere(k, a, c)
  {
    forall t | t !in OwnedLabels(k)
      ensures Get(c.labels, t) == Get(a.labels, t)
    {
      assert Get(b.labels, t) == Get(a.labels, t);
    }
    forall t | t !in OwnedAnnotations(k)
      ensures Get(c.annotations, t) == Get(a.annotations, t)
    {
      assert Get(b.annotations, t) == Get(a.annotations, t);
    }
  }

  /** No run changes anything the controller does not own. */
  lemma RunFrame(cfg: Config, name: string, base: Space, events: seq<Event>)
    requires Ns in base && ValidRun(cfg, name, Boot(base), events)
    ensures forall k, o :: (k, o) in Run(cfg, name, Boot(base), events).seen && k in base ==>
            SameElsewhere(k, base[k], o)
  {
    var p: ObjectProperty := (k, o) => k in base ==> SameElsewhere(k, base[k], o);
    forall op, k, snap, o | OnKind(op, k) && p(k, snap) && p(k, o)
      ensures p(k, Written(name, op, snap, o))
    {
      if k in base {
        WrittenElsewhere(name, op, k, snap, o);
        SameElsewhereTransitive(k, base[k], o, Written(name, op, snap, o));
      }
    }
    assert forall op :: Preserves(p, name, op);
    RunKeeps(p, cfg, name, Boot(base), events);
    var s := Run(cfg, name, Boot(base), events);
    forall k, o | (k, o) in s.seen && k in base
      ensures SameElsewhere(k, base[k], o)
    {
      assert p(k, o);
    }
  }

  /** A selector that reads only labels the controller does not write keeps its verdict. */
  lemma SelectionStable(selector: seq<Requirement>, k: Key, a: Object, b: Object)
    requires Independent(selector) && SameElsewhere(k, a, b)
    ensures MatchesAll(selector, a.labels) <==> MatchesAll(selector, b.labels)
  {
    forall r | r in selector
      ensures r.Matches(a.labels) <==> r.Matches(b.labels)
    {
      assert r.key !in OwnedLabels(k);
      assert Get(b.labels, r.key) == Get(a.labels, r.key);
    }
  }
}
