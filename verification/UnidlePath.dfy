/** Exactly when complete runs, whatever fails in them and however old what their Lists show, leave a
    namespace from which there is a way back up. */
module UnidlePath {
  import opened Options
  import opened CommaList
  import opened Hyphens
  import opened Clusters
  import opened Patches
  import opened Idlers
  import opened IdlerFacts
  import opened Unidlers
  import opened UnidlerFacts
  import opened Protocol
  import opened Safety
  import opened WakePath
  import opened Calls

  // ---------------------------------------------------------------- the condition

  /** An idled deployment that this Unidle leaves idled: its patch fails, or the first List shows it in
      a version that is not idled. */
  ghost predicate Missed(space: Space, view: Space, env: Env, k: Key) {
    k in space && k in view && IsIdled(k, space[k]) && (k in env.faults || !IsIdled(k, view[k]))
  }

  ghost predicate SomeMissed(space: Space, view: Space, env: Env) {
    exists k :: Missed(space, view, env, k)
  }

  ghost predicate SelectedIn(cfg: Config, space: Space, k: Key) {
    k in space && Selected(cfg, k, space[k])
  }

  /** A strip computed from a version without this annotation deletes it, from one with the entry takes
      the entry out, and from any other leaves the annotation alone. */
  predicate Takes(o: Object, t: Tag, code: string) {
    t !in o.annotations || code in Split(o.annotations[t])
  }

  predicate StripTakes(name: string, o: Object) {
    && (HttpErrors in o.annotations || Middlewares in o.annotations)
    && (Takes(o, HttpErrors, "503") || Takes(o, Middlewares, Middleware(name)))
  }

  /** This Unidle takes the label from the namespace of a selected ingress, or an entry from one. */
  ghost predicate CutsPath(cfg: Config, name: string, space: Space, ings: Space, env: Env) {
    exists k :: SelectedIn(cfg, space, k) && CutsAt(name, ings, env, k)
  }

  ghost predicate CutsAt(name: string, ings: Space, env: Env, k: Key) {
    Ns !in env.faults || (env.listsIngresses && k !in env.faults && k in ings && StripTakes(name, ings[k]))
  }

  // ---------------------------------------------------------------- a strip from a stale version

  lemma StrippedValue(o: Object, t: Tag, code: string)
    requires code != ""
    ensures var after := Stripped(o, t, code);
            && (after.Some? && after.value == Annotation(o, t) <==> !Takes(o, t, code))
            && (Takes(o, t, code) ==> code !in Split(after.GetOr("")))
  {
    if t in o.annotations {
      var codes := o.annotations[t];
      RemovedEntries(codes, code);
      RemoveIdempotent(codes, code);
      JoinSplit(codes);
      if code !in Split(codes) {
        WithoutAbsent(Split(codes), code);
      }
    }
  }

  /** One of the two entries after a strip. */
  lemma EntryAfterStrip(name: string, snap: Object, o: Object, t: Tag, code: string)
    requires StripPatch(name, snap).Some? && OwnEntry(name, t, code) && code != ""
    ensures code in Split(Annotation(Written(name, Strip, snap, o), t)) <==>
              code in Split(Annotation(o, t)) && !Takes(snap, t, code)
  {
    StripMemberWritten(name, snap, o, t, code);
    StrippedValue(snap, t, code);
  }

  lemma CarriesAfterStrip(name: string, snap: Object, o: Object)
    ensures Carries(name, Written(name, Strip, snap, o)) <==> Carries(name, o) && !StripTakes(name, snap)
  {
    if StripPatch(name, snap).Some? {
      EntryAfterStrip(name, snap, o, HttpErrors, "503");
      EntryAfterStrip(name, snap, o, Middlewares, Middleware(name));
    }
  }

  /** From a version that carries the path a strip takes it. */
  lemma CarryingIsTaken(name: string, o: Object)
    requires Carries(name, o)
    ensures StripTakes(name, o)
  {
    assert Split("") == [""];
  }

  // ---------------------------------------------------------------- one Unidle

  lemma StillIdledIff(name: string, space: Space, view: Space, ings: Space, env: Env, k: Key)
    requires WellFormed(space, env) && view.Keys == space.Keys && env.listsDeployments
    requires k in space && k.Dep? && DeploymentOk(space[k]) && DeploymentOk(view[k])
    ensures IsIdled(k, UnidledFrom(name, space, view, ings, env)[k]) <==> Missed(space, view, env, k)
  {
    UnidledFromDeployment(name, space, view, ings, env, k);
    IdledAfterWake(name, k, view[k], space[k]);
  }

  lemma IdledAfterWake(name: string, k: Key, snap: Object, o: Object)
    requires k.Dep? && DeploymentOk(snap)
    ensures IsIdled(k, Written(name, Wake, snap, o)) <==> IsIdled(k, o) && !IsIdled(k, snap)
  {
    if IsIdled(k, snap) {
      WokenNotIdled(name, k, snap, o);
    }
  }

  lemma NoneIdledIff(name: string, space: Space, view: Space, ings: Space, env: Env)
    requires WellFormed(space, env) && view.Keys == space.Keys && env.listsDeployments
    requires AllOk(space) && AllOk(view)
    ensures NoneIdled(UnidledFrom(name, space, view, ings, env)) <==> !SomeMissed(space, view, env)
  {
    forall k | k in space
      ensures IsIdled(k, UnidledFrom(name, space, view, ings, env)[k]) <==> Missed(space, view, env, k)
    {
      if k.Dep? {
        StillIdledIff(name, space, view, ings, env, k);
      }
    }
  }

  /** What becomes of one ingress: it stays selected or not, and carries the path unless it is taken. */
  lemma StillCarriesIff(cfg: Config, name: string, space: Space, view: Space, ings: Space, env: Env, k: Key)
    requires WellFormed(space, env) && ings.Keys == space.Keys && env.listsDeployments
    requires Independent(cfg.ingress) && k in space && k.Ing?
    ensures var after := UnidledFrom(name, space, view, ings, env)[k];
            && (Selected(cfg, k, after) <==> Selected(cfg, k, space[k]))
            && (Carries(name, after) <==>
                  Carries(name, space[k]) && !(env.listsIngresses && k !in env.faults && StripTakes(name, ings[k])))
  {
    UnidledFromIngress(name, space, view, ings, env, k);
    WrittenElsewhere(name, Strip, k, ings[k], space[k]);
    SelectionStable(cfg.ingress, k, space[k], Written(name, Strip, ings[k], space[k]));
    CarriesAfterStrip(name, ings[k], space[k]);
  }

  lemma StillLabelledIff(name: string, space: Space, view: Space, ings: Space, env: Env)
    requires Ns in space && env.listsDeployments
    ensures Has(UnidledFrom(name, space, view, ings, env)[Ns].labels, Idled, "true") <==>
              Has(space[Ns].labels, Idled, "true") && Ns in env.faults
  {
    UnidledFromNamespace(name, space, view, ings, env);
    MarkedIdled(name, "false", space[Ns], space[Ns]);
  }

  lemma PathCutIff(cfg: Config, name: string, space: Space, view: Space, ings: Space, env: Env)
    requires WellFormed(space, env) && ings.Keys == space.Keys && env.listsDeployments
    requires Independent(cfg.ingress) && PathOpen(cfg, name, space)
    ensures PathOpen(cfg, name, UnidledFrom(name, space, view, ings, env)) <==> !CutsPath(cfg, name, space, ings, env)
  {
    var after := UnidledFrom(name, space, view, ings, env);
    forall k | k in space && k.Ing?
      ensures SelectedIn(cfg, after, k) <==> SelectedIn(cfg, space, k)
      ensures Carries(name, after[k]) && Ns in env.faults <==>
                Carries(name, space[k]) && !CutsAt(name, ings, env, k)
    {
      StillCarriesIff(cfg, name, space, view, ings, env, k);
    }
    StillLabelledIff(name, space, view, ings, env);
    PathCutByParts(cfg, name, space, after, ings, env);
  }

  lemma PathCutByParts(cfg: Config, name: string, space: Space, after: Space, ings: Space, env: Env)
    requires after.Keys == space.Keys && Ns in space && PathOpen(cfg, name, space)
    requires forall k :: k in space && k.Ing? ==> (SelectedIn(cfg, after, k) <==> SelectedIn(cfg, space, k))
    requires forall k :: k in space && k.Ing? ==>
               (Carries(name, after[k]) && Ns in env.faults <==> Carries(name, space[k]) && !CutsAt(name, ings, env, k))
    requires Has(after[Ns].labels, Idled, "true") <==> Has(space[Ns].labels, Idled, "true") && Ns in env.faults
    ensures PathOpen(cfg, name, after) <==> !CutsPath(cfg, name, space, ings, env)
  {
    if CutsPath(cfg, name, space, ings, env) {
      var k :| SelectedIn(cfg, space, k) && CutsAt(name, ings, env, k);
      assert SelectedIn(cfg, after, k);
    } else {
      forall k | SelectedIn(cfg, after, k)
        ensures Carries(name, after[k]) && Has(after[Ns].labels, Idled, "true")
      {
        assert SelectedIn(cfg, space, k);
      }
    }
  }

  ghost predicate AllOk(space: Space) {
    forall k :: k in space && k.Dep? ==> DeploymentOk(space[k])
  }

  /** From a namespace with a way back up, a complete Unidle keeps one unless it leaves some deployment
      idled and yet cuts the path. Which of its calls fail and what its two Lists show decide both. */
  lemma UnidleKeepsPathIff(cfg: Config, name: string, space: Space, view: Space, ings: Space, env: Env)
    requires WellFormed(space, env) && view.Keys == space.Keys && ings.Keys == space.Keys
    requires Independent(cfg.ingress) && AllOk(space) && AllOk(view) && Wakeable(cfg, name, space)
    ensures Wakeable(cfg, name, UnidledFrom(name, space, view, ings, env)) <==>
              !(env.listsDeployments && SomeMissed(space, view, env) && CutsPath(cfg, name, space, ings, env))
  {
    if env.listsDeployments {
      NoneIdledIff(name, space, view, ings, env);
      if PathOpen(cfg, name, space) {
        PathCutIff(cfg, name, space, view, ings, env);
      } else {
        assert !SomeMissed(space, view, env);
      }
    }
  }

  /** The same with Lists that are up to date. */
  lemma FreshUnidleKeepsPathIff(cfg: Config, name: string, space: Space, env: Env)
    requires WellFormed(space, env) && Independent(cfg.ingress) && Wakeable(cfg, name, space) && AllOk(space)
    ensures Wakeable(cfg, name, Unidled(name, space, env)) <==>
              !(&& env.listsDeployments
                && (exists k :: k in space && IsIdled(k, space[k]) && k in env.faults)
                && (exists k :: SelectedIn(cfg, space, k)
                                && (Ns !in env.faults || (env.listsIngresses && k !in env.faults))))
  {
    var ings := WokenFrom(name, space, space, env);
    UnidleKeepsPathIff(cfg, name, space, space, ings, env);
    assert forall k :: k in space && IsIdled(k, space[k]) && k in env.faults <==> Missed(space, space, env, k);
    if PathOpen(cfg, name, space) {
      forall k | SelectedIn(cfg, space, k)
        ensures CutsAt(name, ings, env, k) <==> Ns !in env.faults || (env.listsIngresses && k !in env.faults)
      {
        WokenOthers(name, space, space, env, k);
        CarryingIsTaken(name, space[k]);
      }
    }
  }

  /** Whatever it misses, an Unidle cuts nothing when its ingress List shows versions with nothing to take
      and the patch of the namespace fails. */
  lemma OldIngressesKeepPath(cfg: Config, name: string, space: Space, view: Space, ings: Space, env: Env)
    requires WellFormed(space, env) && view.Keys == space.Keys && ings.Keys == space.Keys
    requires Independent(cfg.ingress) && AllOk(space) && AllOk(view) && Wakeable(cfg, name, space)
    requires Ns in env.faults
    requires forall k :: SelectedIn(cfg, space, k) ==> !StripTakes(name, ings[k])
    ensures Wakeable(cfg, name, UnidledFrom(name, space, view, ings, env))
  {
    UnidleKeepsPathIff(cfg, name, space, view, ings, env);
  }

  // ---------------------------------------------------------------- one idle

  /** patchIngress, complete or not, takes the path from no ingress and the label from no namespace. */
  lemma AnnotatedKeepsPath(cfg: Config, name: string, space: Space, ings: Space, env: Env)
    requires CommaFree(name) && Independent(cfg.ingress) && Ns in space && PathOpen(cfg, name, space)
    requires ings.Keys == space.Keys
    ensures PathOpen(cfg, name, AnnotatedFrom(cfg, name, space, ings, env).0)
  {
    var after := AnnotatedFrom(cfg, name, space, ings, env).0;
    forall k | k in space && Selected(cfg, k, after[k])
      ensures Selected(cfg, k, space[k]) && Carries(name, after[k])
    {
      AnnotatedOrNot(cfg, name, space, ings, env, k);
      AnnotatedCarries(name, ings[k], space[k]);
      WrittenElsewhere(name, Annotate, k, ings[k], space[k]);
      SelectionStable(cfg.ingress, k, space[k], Written(name, Annotate, ings[k], space[k]));
    }
    AnnotatedFromNamespace(cfg, name, space, ings, env);
    MarkedIdled(name, "true", space[Ns], space[Ns]);
  }

  lemma AnnotatedOrNot(cfg: Config, name: string, space: Space, ings: Space, env: Env, k: Key)
    requires k in space && k in ings && k.Ing?
    ensures AnnotatedFrom(cfg, name, space, ings, env).0[k] in {space[k], Written(name, Annotate, ings[k], space[k])}
  {
  }

  lemma DeploymentsKeepPath(cfg: Config, name: string, space: Space, view: Space, env: Env, fi: bool, fs: bool)
    requires Ns in space && PathOpen(cfg, name, space)
    ensures PathOpen(cfg, name,
                     Patched(name, space, view, DeploymentsOf(cfg, view, env), Idle(env.now, fi, fs), env.faults))
  {
    var after := Patched(name, space, view, DeploymentsOf(cfg, view, env), Idle(env.now, fi, fs), env.faults);
    forall k | k in space && !k.Dep?
      ensures after[k] == space[k]
    {
      DeploymentsOnly(cfg, name, space, view, env, fi, fs, k);
    }
    PathKept(cfg, name, space, after);
  }

  /** When patchIngress reports no error, the path is open. */
  lemma AnnotatedOpensPath(cfg: Config, name: string, space: Space, ings: Space, env: Env)
    requires CommaFree(name) && Independent(cfg.ingress) && !cfg.skipIngressPatch && !cfg.dryRun
    requires WellFormed(space, env) && SameSelection(cfg, space, ings) && AnnotatedFrom(cfg, name, space, ings, env).1
    ensures PathOpen(cfg, name, AnnotatedFrom(cfg, name, space, ings, env).0)
  {
    var after := AnnotatedFrom(cfg, name, space, ings, env).0;
    forall k | k in space && Selected(cfg, k, after[k])
      ensures Carries(name, after[k]) && Has(after[Ns].labels, Idled, "true")
    {
      AnnotatedFromIngress(cfg, name, space, ings, env, k);
      AnnotatedCarries(name, ings[k], space[k]);
      MarkedIdled(name, "true", space[Ns], space[Ns]);
    }
  }

  /** The selector picks the same ingresses in both; it does in all versions of a namespace. */
  ghost predicate SameSelection(cfg: Config, a: Space, b: Space) {
    a.Keys == b.Keys && forall k :: k in a ==> (Selected(cfg, k, a[k]) <==> Selected(cfg, k, b[k]))
  }

  /** A complete idle keeps a way back up, whatever fails in it and whatever its Lists show. */
  lemma IdleKeepsPath(cfg: Config, name: string, space: Space, view: Space, ings: Space, env: Env, fi: bool, fs: bool)
    requires CommaFree(name) && Independent(cfg.ingress) && !cfg.skipIngressPatch
    requires WellFormed(space, env) && view.Keys == space.Keys && SameSelection(cfg, space, ings)
    requires Wakeable(cfg, name, space)
    ensures Wakeable(cfg, name, IdleRunFrom(cfg, name, space[Ns], space, view, ings, env, fi, fs))
  {
    var after := IdleRunFrom(cfg, name, space[Ns], space, view, ings, env, fi, fs);
    var (annotated, ok) := AnnotatedFrom(cfg, name, space, ings, env);
    if IdlesFrom(cfg, name, space[Ns], space, view, ings, env, fi, fs) {
      AnnotatedOpensPath(cfg, name, space, ings, env);
      DeploymentsKeepPath(cfg, name, annotated, view, env, fi, fs);
    } else if PathOpen(cfg, name, space) {
      AnnotatedKeepsPath(cfg, name, space, ings, env);
    } else {
      forall k | k in space
        ensures !IsIdled(k, after[k])
      {
        if k.Dep? {
          IdleRunFromDeployment(cfg, name, space[Ns], space, view, ings, env, fi, fs, k);
        }
      }
    }
  }

  // ---------------------------------------------------------------- whole sequences of runs

  /** A complete run, whatever fails in it, with what its Lists show. */
  datatype Step = Step(call: Call, shown: Shown)

  /** The run lists this namespace's objects, in versions they can have had. */
  ghost predicate Possible(cfg: Config, space: Space, step: Step) {
    && WellFormed(space, step.call.env)
    && step.shown.view.Keys == space.Keys && AllOk(step.shown.view)
    && SameSelection(cfg, space, step.shown.ings)
  }

  /** What any List may show after any run from a valid namespace is possible. */
  lemma AnswersArePossible(cfg: Config, name: string, base: Space, events: seq<Event>, view: Space)
    requires Ns in base && AllOk(base) && Independent(cfg.ingress) && ValidRun(cfg, name, Boot(base), events)
    requires var s := Run(cfg, name, Boot(base), events); Answers(view, s.objs, s.seen)
    ensures var objs := Run(cfg, name, Boot(base), events).objs;
            AllOk(objs) && AllOk(view) && SameSelection(cfg, objs, view)
  {
    RunSound(cfg, name, Boot(base), events);
    IdledIsRestorable(cfg, name, base, events);
    RunFrame(cfg, name, base, events);
    var s := Run(cfg, name, Boot(base), events);
    forall k | k in s.objs
      ensures k.Dep? ==> DeploymentOk(s.objs[k]) && DeploymentOk(view[k])
      ensures Selected(cfg, k, s.objs[k]) <==> Selected(cfg, k, view[k])
    {
      assert (k, s.objs[k]) in s.seen && (k, view[k]) in s.seen;
      SelectionStable(cfg.ingress, k, base[k], s.objs[k]);
      SelectionStable(cfg.ingress, k, base[k], view[k]);
    }
  }

  ghost function Stepped(cfg: Config, name: string, space: Space, step: Step): (r: Space)
    requires Ns in space
    ensures r.Keys == space.Keys
  {
    CalledFrom(cfg, name, space, step.call, step.shown)
  }

  ghost predicate Cuts(cfg: Config, name: string, space: Space, step: Step) {
    && step.call.UnidleCall? && step.call.env.listsDeployments
    && SomeMissed(space, step.shown.view, step.call.env)
    && CutsPath(cfg, name, space, step.shown.ings, step.call.env)
  }

  ghost predicate NeverCuts(cfg: Config, name: string, space: Space, steps: seq<Step>)
    requires Ns in space
    decreases |steps|
  {
    steps == []
    || (!Cuts(cfg, name, space, steps[0]) && NeverCuts(cfg, name, Stepped(cfg, name, space, steps[0]), steps[1..]))
  }

  ghost predicate AlwaysWakeable(cfg: Config, name: string, space: Space, steps: seq<Step>)
    requires Ns in space
    decreases |steps|
  {
    Wakeable(cfg, name, space)
    && (steps == [] || AlwaysWakeable(cfg, name, Stepped(cfg, name, space, steps[0]), steps[1..]))
  }

  lemma SteppedOk(cfg: Config, name: string, space: Space, step: Step)
    requires Ns in space && AllOk(space) && Possible(cfg, space, step)
    ensures AllOk(Stepped(cfg, name, space, step))
  {
    var view, ings := step.shown.view, step.shown.ings;
    forall k | k in space && k.Dep?
      ensures DeploymentOk(Stepped(cfg, name, space, step)[k])
    {
      match step.call
      case IdleCall(env, fi, fs) =>
        IdleRunFromDeployment(cfg, name, space[Ns], space, view, ings, env, fi, fs, k);
        DeploymentPreserved(name, Idle(env.now, fi, fs), k, view[k], space[k]);
      case UnidleCall(env) =>
        UnidledFromDeployment(name, space, view, ings, env, k);
        DeploymentPreserved(name, Wake, k, view[k], space[k]);
    }
  }

  lemma SteppedSelection(cfg: Config, name: string, space: Space, step: Step)
    requires Ns in space && Possible(cfg, space, step) && Independent(cfg.ingress)
    ensures SameSelection(cfg, space, Stepped(cfg, name, space, step))
  {
    var view, ings := step.shown.view, step.shown.ings;
    var after := Stepped(cfg, name, space, step);
    forall k | k in space && k.Ing?
      ensures Selected(cfg, k, space[k]) <==> Selected(cfg, k, after[k])
    {
      match step.call
      case IdleCall(env, fi, fs) =>
        AnnotatedOrNot(cfg, name, space, ings, env, k);
        DeploymentsOnly(cfg, name, AnnotatedFrom(cfg, name, space, ings, env).0, view, env, fi, fs, k);
        WrittenElsewhere(name, Annotate, k, ings[k], space[k]);
        SelectionStable(cfg.ingress, k, space[k], Written(name, Annotate, ings[k], space[k]));
      case UnidleCall(env) =>
        UnidledFromIngress(name, space, view, ings, env, k);
        WrittenElsewhere(name, Strip, k, ings[k], space[k]);
        SelectionStable(cfg.ingress, k, space[k], Written(name, Strip, ings[k], space[k]));
    }
  }

  lemma StepKeepsPathIff(cfg: Config, name: string, space: Space, step: Step)
    requires CommaFree(name) && Independent(cfg.ingress) && !cfg.skipIngressPatch
    requires Ns in space && AllOk(space) && Possible(cfg, space, step) && Wakeable(cfg, name, space)
    ensures Wakeable(cfg, name, Stepped(cfg, name, space, step)) <==> !Cuts(cfg, name, space, step)
  {
    var view, ings := step.shown.view, step.shown.ings;
    match step.call
    case IdleCall(env, fi, fs) => IdleKeepsPath(cfg, name, space, view, ings, env, fi, fs);
    case UnidleCall(env) => UnidleKeepsPathIff(cfg, name, space, view, ings, env);
  }

  /** Over any sequence of complete runs, with Lists that show any earlier versions and failures of any
      kind, there is a way back up after every one of them if and only if no Unidle leaves a deployment
      idled and yet cuts the path. */
  lemma {:induction false} CallsKeepPathIff(cfg: Config, name: string, space: Space, steps: seq<Step>)
    requires CommaFree(name) && Independent(cfg.ingress) && !cfg.skipIngressPatch
    requires Ns in space && AllOk(space) && Wakeable(cfg, name, space)
    requires forall step :: step in steps ==> Possible(cfg, space, step)
    ensures AlwaysWakeable(cfg, name, space, steps) <==> NeverCuts(cfg, name, space, steps)
    decreases |steps|
  {
    if steps != [] {
      HeadOrRest(steps);
      var next := Stepped(cfg, name, space, steps[0]);
      SteppedOk(cfg, name, space, steps[0]);
      SteppedSelection(cfg, name, space, steps[0]);
      StepKeepsPathIff(cfg, name, space, steps[0]);
      if Wakeable(cfg, name, next) {
        CallsKeepPathIff(cfg, name, next, steps[1..]);
      }
    }
  }
}
