/** The six kinds of patch the controller sends, each computed from a snapshot of the object it is
    sent to, and what it does to an object that may have changed since. */
module Patches {
  import opened Options
  import opened CommaList
  import opened Hyphens
  import opened Decimal
  import opened Clusters

  datatype Op =
    | Annotate                                           // patchIngress, one ingress
    | Strip                                              // removeCodeFromIngress, one ingress
    | Idle(now: string, forceIdle: bool, forceScale: bool) // idleDeployments, one deployment
    | Wake                                               // Unidle, one deployment
    | Mark(value: string)                                // the namespace's idled label
    | Clear(trigger: Tag)                                // Reconcile, a trigger label

  predicate OnKind(op: Op, key: Key) {
    match op
    case Annotate | Strip => key.Ing?
    case Idle(_, _, _) | Wake => key.Dep?
    case Mark(_) => key.Ns?
    case Clear(trigger) => key.Ns? && trigger in {ForceScaled, ForceIdled, UnidleNow}
  }

  function Annotation(o: Object, t: Tag): string {
    Get(o.annotations, t).GetOr("")
  }

  function AnnotatePatch(name: string, ing: Object): Patch {
    Patch(map[Idled := Some("true")],
          map[HttpErrors := Some(Added(Annotation(ing, HttpErrors), "503")),
              Middlewares := Some(Added(Annotation(ing, Middlewares), Middleware(name)))],
          None)
  }

  /** The annotation that remains once `code` is gone; None when it is absent or runs empty. */
  function Stripped(ing: Object, t: Tag, code: string): Option<string> {
    if t in ing.annotations then Removed(ing.annotations[t], code) else None
  }

  /** The patch member for one annotation: left out only when the value would not change. */
  function StripMember(ing: Object, t: Tag, code: string): TagPatch {
    var after := Stripped(ing, t, code);
    if after.Some? && after.value == Annotation(ing, t) then map[] else map[t := after]
  }

  function StripPatch(name: string, ing: Object): Option<Patch> {
    if HttpErrors in ing.annotations || Middlewares in ing.annotations then
      Some(Patch(map[Idled := Some("false")],
                 map[IdledAt := None] + StripMember(ing, HttpErrors, "503")
                 + StripMember(ing, Middlewares, Middleware(name)),
                 None))
    else None
  }

  /** The count to come back to: the deployment's own, but never 0. */
  function IdleReplicas(dep: Object): int {
    if dep.replicas > 0 then dep.replicas else 1
  }

  function IdlePatch(dep: Object, now: string, forceIdle: bool, forceScale: bool): Patch {
    Patch(map[Watch := Some("true"), Idled := Some("true")]
          + (if forceIdle then map[ForceIdled := Some("true")] else map[])
          + (if forceScale then map[ForceScaled := Some("true")] else map[]),
          map[IdledAt := Some(now), UnidleReplicas := Some(FormatInt(IdleReplicas(dep)))],
          Some(0))
  }

  /** The count an unidle scales to: the annotation when it is a positive number, otherwise 1. */
  function WakeReplicas(dep: Object): int {
    if UnidleReplicas in dep.annotations then
      match Atoi(dep.annotations[UnidleReplicas])
      case Number(n) => if n > 0 then n else 1
      case _ => 1
    else 1
  }

  function WakePatch(dep: Object): Option<Patch> {
    if Has(dep.labels, Idled, "true") && dep.replicas == 0 then
      Some(Patch(map[Idled := Some("false"), ForceIdled := None, ForceScaled := None],
                 map[IdledAt := None],
                 Some(WakeReplicas(dep))))
    else None
  }

  function MarkPatch(value: string): Patch {
    Patch(map[Idled := Some(value)], map[], None)
  }

  function ClearPatch(trigger: Tag): Patch {
    Patch(map[trigger := None], map[], None)
  }

  /** The patch `op` sends for an object last seen as `snap`; None when it sends none. */
  function PatchFor(name: string, op: Op, snap: Object): Option<Patch> {
    match op
    case Annotate => Some(AnnotatePatch(name, snap))
    case Strip => StripPatch(name, snap)
    case Idle(now, fi, fs) => Some(IdlePatch(snap, now, fi, fs))
    case Wake => WakePatch(snap)
    case Mark(value) => Some(MarkPatch(value))
    case Clear(trigger) => Some(ClearPatch(trigger))
  }

  /** The object `o` after the patch computed from `snap` was sent and nothing failed. */
  function Written(name: string, op: Op, snap: Object, o: Object): Object {
    match PatchFor(name, op, snap)
    case None => o
    case Some(p) => if Accepted(p) then Apply(p, o) else o
  }

  /** A whole loop over `keys`, each patch computed from `view`; those in `faults` fail. */
  function Patched(name: string, space: Space, view: Space, keys: seq<Key>, op: Op, faults: set<Key>): Space {
    map k | k in space ::
      if k in keys && k in view && k !in faults then Written(name, op, view[k], space[k]) else space[k]
  }

  /** One more round of such a loop, for an object whose snapshot calls for the patch `p`. */
  lemma SentStep(spaces: map<string, Space>, name: string, view: Space, keys: seq<Key>, op: Op, faults: set<Key>,
                 key: Key, p: Patch)
    requires name in spaces && key in spaces[name] && key in view && key !in keys
    requires PatchFor(name, op, view[key]) == Some(p)
    ensures Sent(spaces[name := Patched(name, spaces[name], view, keys, op, faults)], name, key, p, key in faults)
         == spaces[name := Patched(name, spaces[name], view, keys + [key], op, faults)]
  {
    PatchedStep(name, spaces[name], view, keys, op, faults, key);
    var before := Patched(name, spaces[name], view, keys, op, faults);
    var after := Patched(name, spaces[name], view, keys + [key], op, faults);
    assert before[key] == spaces[name][key];
    if key in faults || !Accepted(p) {
      assert after == before;
    } else {
      assert after == before[key := Apply(p, before[key])];
      assert spaces[name := before][name := after] == spaces[name := after];
    }
  }

  /** The cluster after an operation on one object last seen as `snap`. */
  function Performed(spaces: map<string, Space>, name: string, key: Key, op: Op, snap: Object,
                     fault: bool): map<string, Space> {
    match PatchFor(name, op, snap)
    case None => spaces
    case Some(p) => Sent(spaces, name, key, p, fault)
  }

  ghost predicate Loopable(space: Space, view: Space, keys: seq<Key>) {
    NoDuplicates(keys) && forall k :: k in keys ==> k in view && k in space
  }

  /** Round `i` of a loop over `keys`. */
  lemma LoopStep(spaces: map<string, Space>, name: string, view: Space, keys: seq<Key>, i: nat, op: Op,
                 faults: set<Key>)
    requires name in spaces && i < |keys| && Loopable(spaces[name], view, keys)
    ensures keys[i] in view
    ensures Performed(spaces[name := Patched(name, spaces[name], view, keys[..i], op, faults)],
                      name, keys[i], op, view[keys[i]], keys[i] in faults)
         == spaces[name := Patched(name, spaces[name], view, keys[..i + 1], op, faults)]
  {
    PrefixStep(keys, i);
    if PatchFor(name, op, view[keys[i]]).None? {
      SkipStep(spaces, name, view, keys[..i], op, faults, keys[i]);
    } else {
      SentStep(spaces, name, view, keys[..i], op, faults, keys[i], PatchFor(name, op, view[keys[i]]).value);
    }
  }

  lemma SelectLoopable(space: Space, order: seq<Key>, f: Filter)
    requires NoDuplicates(order)
    ensures Loopable(space, space, Select(space, order, f))
  {
    SelectDistinct(space, order, f);
  }

  /** The single patch of the namespace object. */
  lemma MarkStep(spaces: map<string, Space>, name: string, op: Op, faults: set<Key>)
    requires name in spaces && Ns in spaces[name] && (op.Mark? || op.Clear?)
    ensures Sent(spaces, name, Ns, PatchFor(name, op, spaces[name][Ns]).value, Ns in faults)
         == spaces[name := Patched(name, spaces[name], spaces[name], [Ns], op, faults)]
  {
    var space := spaces[name];
    LoopEnds(spaces, name, space, [Ns], op, faults);
    LoopStep(spaces, name, space, [Ns], 0, op, faults);
  }

  lemma PatchedStep(name: string, space: Space, view: Space, keys: seq<Key>, op: Op, faults: set<Key>, key: Key)
    requires key !in keys && key in view && key in space
    ensures Patched(name, space, view, keys + [key], op, faults)
         == if key in faults then Patched(name, space, view, keys, op, faults)
            else Patched(name, space, view, keys, op, faults)[key := Written(name, op, view[key], space[key])]
  {
  }

  /** A round that sends nothing because the snapshot calls for no patch. */
  lemma SkipStep(spaces: map<string, Space>, name: string, view: Space, keys: seq<Key>, op: Op, faults: set<Key>,
                 key: Key)
    requires name in spaces && key in spaces[name] && key in view && key !in keys
    requires PatchFor(name, op, view[key]).None?
    ensures Patched(name, spaces[name], view, keys + [key], op, faults)
            == Patched(name, spaces[name], view, keys, op, faults)
  {
    var before := Patched(name, spaces[name], view, keys, op, faults);
    assert before[key] == spaces[name][key];
    PatchedStep(name, spaces[name], view, keys, op, faults, key);
    assert before[key := before[key]] == before;
  }

  lemma LoopEnds(spaces: map<string, Space>, name: string, view: Space, keys: seq<Key>, op: Op, faults: set<Key>)
    requires name in spaces
    ensures spaces[name := Patched(name, spaces[name], view, keys[..0], op, faults)] == spaces
    ensures keys[..|keys|] == keys
  {
    assert Patched(name, spaces[name], view, [], op, faults) == spaces[name];
  }

  // ---------------------------------------------------------------- round trips on one object

  /** Idling a running deployment and waking it restores its replica count exactly. What stays
      behind is the watch label, idled=false and the recorded count; both force labels are gone. */
  lemma IdleThenWake(name: string, d: Object, now: string, fi: bool, fs: bool)
    requires 1 <= d.replicas <= MAX_INT32
    ensures var idled := Written(name, Idle(now, fi, fs), d, d);
            var woken := Written(name, Wake, idled, idled);
            && idled.replicas == 0
            && woken.replicas == d.replicas
            && woken.labels == (d.labels - {ForceIdled, ForceScaled})[Watch := "true"][Idled := "false"]
            && woken.annotations == (d.annotations - {IdledAt})[UnidleReplicas := FormatInt(d.replicas)]
  {
    WakeReplicasOfIdled(d, now, fi, fs);
    IdleThenWakeLabels(d, now, fi, fs);
    IdleThenWakeAnnotations(d, now, fi, fs);
    var idled := Apply(IdlePatch(d, now, fi, fs), d);
    IdleWritten(name, d, d, now, fi, fs);
    WakeWritten(name, idled, idled);
  }

  /** Idling always goes through: its patch asks for 0 replicas. */
  lemma IdleWritten(name: string, snap: Object, o: Object, now: string, fi: bool, fs: bool)
    ensures Written(name, Idle(now, fi, fs), snap, o) == Apply(IdlePatch(snap, now, fi, fs), o)
    ensures Written(name, Idle(now, fi, fs), snap, o).replicas == 0
  {
  }

  /** What an idle leaves on a deployment, whatever it was before: watched, idled, stamped, and each
      force label set when asked for and otherwise left as it was. */
  lemma IdleMarks(name: string, snap: Object, o: Object, now: string, fi: bool, fs: bool)
    ensures var idled := Written(name, Idle(now, fi, fs), snap, o);
            && Has(idled.labels, Watch, "true") && Has(idled.labels, Idled, "true")
            && Get(idled.labels, ForceIdled) == (if fi then Some("true") else Get(o.labels, ForceIdled))
            && Get(idled.labels, ForceScaled) == (if fs then Some("true") else Get(o.labels, ForceScaled))
            && Has(idled.annotations, IdledAt, now)
  {
    IdleEntries(snap, now, fi, fs);
    IdleWritten(name, snap, o, now, fi, fs);
  }

  lemma IdleEntries(snap: Object, now: string, fi: bool, fs: bool)
    ensures var p := IdlePatch(snap, now, fi, fs);
            && Get(p.labels, Watch) == Some(Some("true")) && Get(p.labels, Idled) == Some(Some("true"))
            && Get(p.labels, ForceIdled) == (if fi then Some(Some("true")) else None)
            && Get(p.labels, ForceScaled) == (if fs then Some(Some("true")) else None)
            && Get(p.annotations, IdledAt) == Some(Some(now))
  {
  }

  /** What waking writes, field by field. */
  lemma WakeWritten(name: string, snap: Object, o: Object)
    requires Has(snap.labels, Idled, "true") && snap.replicas == 0 && WakeReplicas(snap) <= MAX_INT32
    ensures Written(name, Wake, snap, o) == Object(
              Merge(o.labels, map[Idled := Some("false"), ForceIdled := None, ForceScaled := None]),
              Merge(o.annotations, map[IdledAt := None]),
              WakeReplicas(snap))
  {
  }

  lemma IdleThenWakeLabels(d: Object, now: string, fi: bool, fs: bool)
    ensures Merge(Merge(d.labels, IdlePatch(d, now, fi, fs).labels),
                  map[Idled := Some("false"), ForceIdled := None, ForceScaled := None])
         == (d.labels - {ForceIdled, ForceScaled})[Watch := "true"][Idled := "false"]
  {
    var p := IdlePatch(d, now, fi, fs).labels;
    var q: TagPatch := map[Idled := Some("false"), ForceIdled := None, ForceScaled := None];
    var labels := (d.labels - {ForceIdled, ForceScaled})[Watch := "true"][Idled := "false"];
    assert p[Watch] == Some("true");
    forall t
      ensures Get(Merge(Merge(d.labels, p), q), t) == Get(labels, t)
    {
      if t !in {Watch, Idled, ForceIdled, ForceScaled} {
        assert t !in p && t !in q;
      }
    }
    SameTags(Merge(Merge(d.labels, p), q), labels);
  }

  lemma IdleThenWakeAnnotations(d: Object, now: string, fi: bool, fs: bool)
    requires d.replicas >= 1
    ensures Merge(Merge(d.annotations, IdlePatch(d, now, fi, fs).annotations), map[IdledAt := None])
         == (d.annotations - {IdledAt})[UnidleReplicas := FormatInt(d.replicas)]
  {
    var p := IdlePatch(d, now, fi, fs).annotations;
    var q: TagPatch := map[IdledAt := None];
    var annotations := (d.annotations - {IdledAt})[UnidleReplicas := FormatInt(d.replicas)];
    forall t
      ensures Get(Merge(Merge(d.annotations, p), q), t) == Get(annotations, t)
    {
      if t !in {IdledAt, UnidleReplicas} {
        assert t !in p && t !in q;
      }
    }
    SameTags(Merge(Merge(d.annotations, p), q), annotations);
  }

  /** The count written by an idle is the count read by the next wake. */
  lemma WakeReplicasOfIdled(d: Object, now: string, fi: bool, fs: bool)
    requires d.replicas <= MAX_INT32
    ensures var idled := Apply(IdlePatch(d, now, fi, fs), d);
            && Has(idled.labels, Watch, "true") && Has(idled.labels, Idled, "true") && idled.replicas == 0
            && UnidleReplicas in idled.annotations
            && Atoi(idled.annotations[UnidleReplicas]) == Number(IdleReplicas(d))
            && WakeReplicas(idled) == IdleReplicas(d)
  {
    AtoiFormatInt(IdleReplicas(d));
    var p := IdlePatch(d, now, fi, fs);
    assert p.labels[Watch] == Some("true") && p.labels[Idled] == Some("true");
    assert p.annotations[UnidleReplicas] == Some(FormatInt(IdleReplicas(d)));
  }

  /** Annotating an ingress and stripping it gives back each list that was non-empty and lacked the
      controller's entry; an empty or absent list comes back absent. */
  lemma AnnotateThenStrip(name: string, i: Object)
    requires CommaFree(name)
    requires "503" !in Split(Annotation(i, HttpErrors))
    requires Middleware(name) !in Split(Annotation(i, Middlewares))
    ensures var on := Written(name, Annotate, i, i);
            var off := Written(name, Strip, on, on);
            && "503" in Split(Annotation(on, HttpErrors))
            && Middleware(name) in Split(Annotation(on, Middlewares))
            && Get(off.annotations, HttpErrors)
               == (if Annotation(i, HttpErrors) == "" then None else Get(i.annotations, HttpErrors))
            && Get(off.annotations, Middlewares)
               == (if Annotation(i, Middlewares) == "" then None else Get(i.annotations, Middlewares))
            && (forall t :: t != HttpErrors && t != Middlewares && t != IdledAt ==>
                Get(off.annotations, t) == Get(i.annotations, t))
            && IdledAt !in off.annotations
            && on.labels == i.labels[Idled := "true"] && off.labels == i.labels[Idled := "false"]
  {
    MiddlewareIsOneEntry(name);
    AnnotateWritten(name, i, i);
    AnnotateThenStripElsewhere(name, i);
    var on := Written(name, Annotate, i, i);
    StripUndoes(name, i, on, HttpErrors, "503");
    StripUndoes(name, i, on, Middlewares, Middleware(name));
  }

  lemma AnnotateThenStripElsewhere(name: string, i: Object)
    ensures var on := Written(name, Annotate, i, i);
            var off := Written(name, Strip, on, on);
            && (forall t :: t != HttpErrors && t != Middlewares && t != IdledAt ==>
                Get(off.annotations, t) == Get(i.annotations, t))
            && IdledAt !in off.annotations
            && on.labels == i.labels[Idled := "true"] && off.labels == i.labels[Idled := "false"]
  {
    var on := Written(name, Annotate, i, i);
    AnnotatedElsewhere(name, i);
    StrippedElsewhere(name, on);
    Elsewhere(i, on, Written(name, Strip, on, on));
  }

  lemma Elsewhere(i: Object, on: Object, off: Object)
    requires forall t :: t != HttpErrors && t != Middlewares ==> Get(on.annotations, t) == Get(i.annotations, t)
    requires forall t :: t != HttpErrors && t != Middlewares && t != IdledAt ==>
             Get(off.annotations, t) == Get(on.annotations, t)
    requires on.labels == i.labels[Idled := "true"] && off.labels == on.labels[Idled := "false"]
    ensures forall t :: t != HttpErrors && t != Middlewares && t != IdledAt ==>
            Get(off.annotations, t) == Get(i.annotations, t)
    ensures off.labels == i.labels[Idled := "false"]
  {
  }

  lemma AnnotatedElsewhere(name: string, o: Object)
    ensures var on := Written(name, Annotate, o, o);
            && (forall t :: t != HttpErrors && t != Middlewares ==> Get(on.annotations, t) == Get(o.annotations, t))
            && on.labels == o.labels[Idled := "true"]
            && StripPatch(name, on).Some?
  {
    AnnotateWritten(name, o, o);
    SetOne(o.labels, Idled, "true");
  }

  lemma StrippedElsewhere(name: string, o: Object)
    requires StripPatch(name, o).Some?
    ensures var off := Written(name, Strip, o, o);
            && (forall t :: t != HttpErrors && t != Middlewares && t != IdledAt ==>
                Get(off.annotations, t) == Get(o.annotations, t))
            && IdledAt !in off.annotations
            && off.labels == o.labels[Idled := "false"]
  {
    StripEntries(name, o);
    SetOne(o.labels, Idled, "false");
  }

  lemma StripEntries(name: string, o: Object)
    requires StripPatch(name, o).Some?
    ensures var p := StripPatch(name, o).value.annotations;
            p.Keys <= {HttpErrors, Middlewares, IdledAt} && IdledAt in p && p[IdledAt] == None
  {
    var a, b := StripMember(o, HttpErrors, "503"), StripMember(o, Middlewares, Middleware(name));
    assert a.Keys <= {HttpErrors} && b.Keys <= {Middlewares};
  }

  lemma SetOne(m: Tags, t: Tag, value: string)
    ensures Merge(m, map[t := Some(value)]) == m[t := value]
  {
    forall u
      ensures Get(Merge(m, map[t := Some(value)]), u) == Get(m[t := value], u)
    {
    }
    SameTags(Merge(m, map[t := Some(value)]), m[t := value]);
  }

  lemma AnnotateWritten(name: string, snap: Object, o: Object)
    ensures var on := Written(name, Annotate, snap, o);
            && Get(on.annotations, HttpErrors) == Some(Added(Annotation(snap, HttpErrors), "503"))
            && Get(on.annotations, Middlewares) == Some(Added(Annotation(snap, Middlewares), Middleware(name)))
  {
    var p := AnnotatePatch(name, snap);
    assert p.annotations[HttpErrors].Some? && p.annotations[Middlewares].Some?;
  }

  lemma StripUndoes(name: string, i: Object, on: Object, t: Tag, code: string)
    requires (t == HttpErrors && code == "503") || (t == Middlewares && code == Middleware(name))
    requires CommaFree(code) && code != "" && code !in Split(Annotation(i, t))
    requires Get(on.annotations, t) == Some(Added(Annotation(i, t), code))
    ensures code in Split(Annotation(on, t))
    ensures Get(Written(name, Strip, on, on).annotations, t)
            == if Annotation(i, t) == "" then None else Get(i.annotations, t)
  {
    AddIdempotent(Annotation(i, t), code);
    RemoveUndoesAdd(Annotation(i, t), code);
    StripMemberWritten(name, on, on, t, code);
  }

  /** After a strip, an annotation of the patched object reads as the snapshot's value without the
      code, unless the value would not change, when the object keeps its own. */
  lemma StripMemberWritten(name: string, snap: Object, o: Object, t: Tag, code: string)
    requires StripPatch(name, snap).Some?
    requires (t == HttpErrors && code == "503") || (t == Middlewares && code == Middleware(name))
    ensures var after := Stripped(snap, t, code);
            Get(Written(name, Strip, snap, o).annotations, t)
            == if after.Some? && after.value == Annotation(snap, t) then Get(o.annotations, t) else after
  {
    var p := StripPatch(name, snap).value;
    var mine, codes, middlewares := StripMember(snap, t, code), StripMember(snap, HttpErrors, "503"),
                                    StripMember(snap, Middlewares, Middleware(name));
    assert Get(p.annotations, t) == Get(mine, t);
    assert Written(name, Strip, snap, o).annotations == Merge(o.annotations, p.annotations);
  }

  // ---------------------------------------------------------------- the entry itself

  /** The middlewares entry is the namespace's name with every run of hyphens shortened to one, followed by
      "-aergia@kubernetescrd": an annotation adds it, and a strip takes out exactly it. */
  lemma OwnMiddleware(name: string, i: Object) returns (p: string)
    requires CommaFree(name)
    ensures NoDoubleHyphen(p) && Letters(p) == Letters(name) && (NoDoubleHyphen(name) ==> p == name)
    ensures var entry := p + "-aergia@kubernetescrd";
            && entry in Split(Annotation(Written(name, Annotate, i, i), Middlewares))
            && Get(Written(name, Annotate, i, i).annotations, Middlewares)
                == Some(Added(Annotation(i, Middlewares), entry))
            && (Middlewares in i.annotations ==>
                  Get(Written(name, Strip, i, i).annotations, Middlewares)
                      == Removed(i.annotations[Middlewares], entry))
  {
    p := Collapse(name);
    CollapseNormal(name);
    CollapseIdempotent(name);
    MiddlewareIsOneEntry(name);
    AnnotateWritten(name, i, i);
    AddIdempotent(Annotation(i, Middlewares), Middleware(name));
    if Middlewares in i.annotations {
      StripMemberWritten(name, i, i, Middlewares, Middleware(name));
    }
  }

  /** Which with the following determines it: two hyphens in a row count as one. */
  lemma SameMiddleware(a: string, b: string, snap: Object, o: Object)
    ensures Written(a + "--" + b, Annotate, snap, o) == Written(a + "-" + b, Annotate, snap, o)
    ensures Written(a + "--" + b, Strip, snap, o) == Written(a + "-" + b, Strip, snap, o)
  {
    CollapseRun(a, b);
  }

  // ---------------------------------------------------------------- the count to come back to

  /** An idled deployment at 0 comes back with the recorded count when that is a positive number, and with
      1 when there is none; a count that the cluster does not accept leaves it as it is. */
  lemma WokenCount(name: string, d: Object)
    requires Has(d.labels, Idled, "true") && d.replicas == 0
    ensures UnidleReplicas !in d.annotations ==> Written(name, Wake, d, d).replicas == 1
    ensures UnidleReplicas in d.annotations ==>
              match Atoi(d.annotations[UnidleReplicas])
              case Number(n) =>
                if n <= 0 then Written(name, Wake, d, d).replicas == 1
                else if n <= MAX_INT32 then Written(name, Wake, d, d).replicas == n
                else Written(name, Wake, d, d) == d
              case _ => Written(name, Wake, d, d).replicas == 1
  {
  }
}
