/**
 Publication of the policy index to concurrent evaluations, step by step: updates commit to
 the store, read it back, and swap the two index maps and the version one after the other
 under the write lock; evaluations pick the two maps up one after the other under the read
 lock (engine.go, UpdatePolicies and Evaluate).  A store state is named by its number.
 */
module Publication {

  datatype Updater =
    | Persisting(ver: int)               // before the store transaction
    | Reloading(ver: int)                // committed, before reading the store back
    | Publishing(ver: int, h: nat)       // index built from store state h, before the lock
    | SwapApps(ver: int, h: nat)         // holds the write lock, nothing swapped yet
    | SwapGlobals(ver: int, h: nat)      // byTenantApp swapped
    | SwapVersion(ver: int, h: nat)      // both maps swapped
    | Unlocking(ver: int, h: nat)        // version swapped

  datatype Reader =
    | Entering
    | Locked
    | HasApps(apps: nat)
    | HasBoth(apps: nat, globals: nat)   // both picked up, still locked
    | Deciding(apps: nat, globals: nat)  // lock released, evaluating

  /** `states` counts store states; the newest is number states - 1. */
  datatype State = State(
    states: nat, apps: nat, globals: nat, version: int,
    updaters: map<int, Updater>, readers: map<int, Reader>)

  predicate HoldsWrite(u: Updater) {
    u.SwapApps? || u.SwapGlobals? || u.SwapVersion? || u.Unlocking?
  }

  predicate HoldsRead(r: Reader) {
    r.Locked? || r.HasApps? || r.HasBoth?
  }

  predicate WriteFree(s: State) {
    forall u | u in s.updaters :: !HoldsWrite(s.updaters[u])
  }

  predicate ReadFree(s: State) {
    forall r | r in s.readers :: !HoldsRead(s.readers[r])
  }

  datatype Step =
    | Begin(u: int, ver: int) | Persist(u: int) | Refuse(u: int) | Reload(u: int) | LockWrite(u: int) | Swap(u: int)
    | Enter(r: int) | LockRead(r: int) | Pick(r: int) | Leave(r: int)

  predicate Enabled(s: State, step: Step) {
    match step
    case Begin(u, _) => u !in s.updaters
    case Persist(u) => u in s.updaters && s.updaters[u].Persisting?
    case Refuse(u) => u in s.updaters && s.updaters[u].Persisting?
    case Reload(u) => u in s.updaters && s.updaters[u].Reloading?
    case LockWrite(u) => u in s.updaters && s.updaters[u].Publishing? && WriteFree(s) && ReadFree(s)
    case Swap(u) => u in s.updaters && HoldsWrite(s.updaters[u])
    case Enter(r) => r !in s.readers
    case LockRead(r) => r in s.readers && s.readers[r].Entering? && WriteFree(s)
    case Pick(r) => r in s.readers && HoldsRead(s.readers[r])
    case Leave(r) => r in s.readers && s.readers[r].Deciding?
  }

  function Do(s: State, step: Step): State
    requires Enabled(s, step)
  {
    match step
    case Begin(u, ver) => s.(updaters := s.updaters[u := Persisting(ver)])
    // a transaction makes one new store state; the order of commits is the order of states
    case Persist(u) => s.(states := s.states + 1, updaters := s.updaters[u := Reloading(s.updaters[u].ver)])
    case Refuse(u) => s.(updaters := s.updaters - {u})
    case Reload(u) =>
      if s.states == 0 then s
      else s.(updaters := s.updaters[u := Publishing(s.updaters[u].ver, s.states - 1)])
    case LockWrite(u) => s.(updaters := s.updaters[u := SwapApps(s.updaters[u].ver, s.updaters[u].h)])
    case Swap(u) =>
      (match s.updaters[u]
       case SwapApps(ver, h) => s.(apps := h, updaters := s.updaters[u := SwapGlobals(ver, h)])
       case SwapGlobals(ver, h) => s.(globals := h, updaters := s.updaters[u := SwapVersion(ver, h)])
       case SwapVersion(ver, h) => s.(version := ver, updaters := s.updaters[u := Unlocking(ver, h)])
       case _ => s.(updaters := s.updaters - {u}))
    case Enter(r) => s.(readers := s.readers[r := Entering])
    case LockRead(r) => s.(readers := s.readers[r := Locked])
    case Pick(r) =>
      (match s.readers[r]
       case Locked => s.(readers := s.readers[r := HasApps(s.apps)])
       case HasApps(a) => s.(readers := s.readers[r := HasBoth(a, s.globals)])
       case HasBoth(a, g) => s.(readers := s.readers[r := Deciding(a, g)])
       case _ => s)
    case Leave(r) => s.(readers := s.readers - {r})
  }

  /** One store state, published, nothing going on. */
  const START := State(1, 0, 0, 0, map[], map[])

  ghost predicate Run(states: seq<State>, steps: seq<Step>) {
    && |states| == |steps| + 1 && states[0] == START
    && forall i | 0 <= i < |steps| :: Enabled(states[i], steps[i]) && states[i + 1] == Do(states[i], steps[i])
  }

  // ----- mutual exclusion and atomicity -----

  ghost predicate Exclusive(s: State) {
    && (forall u, v | u in s.updaters && v in s.updaters && HoldsWrite(s.updaters[u]) && HoldsWrite(s.updaters[v]) ::
          u == v)
    && (forall u, r | u in s.updaters && r in s.readers && HoldsWrite(s.updaters[u]) :: !HoldsRead(s.readers[r]))
  }

  ghost predicate Swapping(s: State) {
    exists u | u in s.updaters :: s.updaters[u].SwapGlobals?
  }

  /** Between two swaps, and only then, the maps may come from different store states. */
  ghost predicate Whole(s: State) {
    && s.states > 0 && s.apps < s.states
    && (forall u | u in s.updaters && (s.updaters[u].Publishing? || HoldsWrite(s.updaters[u])) ::
          s.updaters[u].h < s.states)
    && (s.apps == s.globals || Swapping(s))
    && (forall u | u in s.updaters &&
                   (s.updaters[u].SwapGlobals? || s.updaters[u].SwapVersion? || s.updaters[u].Unlocking?) ::
          s.apps == s.updaters[u].h)
  }

  ghost predicate ReadersOk(s: State) {
    && (forall r | r in s.readers && s.readers[r].HasApps? :: s.readers[r].apps == s.apps)
    && (forall r | r in s.readers && (s.readers[r].HasBoth? || s.readers[r].Deciding?) ::
          s.readers[r].apps == s.readers[r].globals < s.states)
  }

  lemma StepKeepsExclusive(s: State, step: Step)
    requires Exclusive(s) && Enabled(s, step)
    ensures Exclusive(Do(s, step))
  {
  }

  lemma StepKeepsWhole(s: State, step: Step)
    requires Exclusive(s) && Whole(s) && Enabled(s, step)
    ensures Whole(Do(s, step))
  {
    var t := Do(s, step);
    if t.apps != t.globals {
      if s.apps == s.globals {
        assert step.Swap? && t.updaters[step.u].SwapGlobals?;
      } else {
        var u :| u in s.updaters && s.updaters[u].SwapGlobals?;
        assert t.updaters[u].SwapGlobals?;
      }
    }
  }

  lemma StepKeepsReaders(s: State, step: Step)
    requires Exclusive(s) && Whole(s) && ReadersOk(s) && Enabled(s, step)
    ensures ReadersOk(Do(s, step))
  {
  }

  lemma {:induction false} InvAlongRun(states: seq<State>, steps: seq<Step>, i: nat)
    requires Run(states, steps) && i < |states|
    ensures Exclusive(states[i]) && Whole(states[i]) && ReadersOk(states[i])
  {
    if i > 0 {
      InvAlongRun(states, steps, i - 1);
      StepKeepsExclusive(states[i - 1], steps[i - 1]);
      StepKeepsWhole(states[i - 1], steps[i - 1]);
      StepKeepsReaders(states[i - 1], steps[i - 1]);
    }
  }

  /** Atomic publication: in every interleaving, an evaluation decides on two maps that were
      built from one and the same committed store state. */
  lemma EvaluationsSeeOneStoreState(states: seq<State>, steps: seq<Step>, i: nat, r: int)
    requires Run(states, steps) && i < |states|
    requires r in states[i].readers && states[i].readers[r].Deciding?
    ensures states[i].readers[r].apps == states[i].readers[r].globals < states[i].states
  {
    InvAlongRun(states, steps, i);
  }

  /** An evaluation that nothing interrupts, while no update swaps: it decides on the two maps that
      are published, and leaves everything as it was. */
  lemma EvaluationAlone(s: State, r: int)
    requires r !in s.readers && WriteFree(s)
    ensures Enabled(s, Enter(r))
    ensures var s1 := Do(s, Enter(r));
            && Enabled(s1, LockRead(r))
            && var s2 := Do(s1, LockRead(r));
            && Enabled(s2, Pick(r))
            && var s3 := Do(s2, Pick(r));
            && Enabled(s3, Pick(r))
            && var s4 := Do(s3, Pick(r));
            && Enabled(s4, Pick(r))
            && var s5 := Do(s4, Pick(r));
            && s5 == s.(readers := s.readers[r := Deciding(s.apps, s.globals)])
            && Enabled(s5, Leave(r)) && Do(s5, Leave(r)) == s
  {
    assert s.readers[r := Entering][r := Locked][r := HasApps(s.apps)][r := HasBoth(s.apps, s.globals)]
             [r := Deciding(s.apps, s.globals)] == s.readers[r := Deciding(s.apps, s.globals)];
    assert s.readers[r := Deciding(s.apps, s.globals)] - {r} == s.readers;
  }

  /** An update about to unlock has set the version to its own. */
  ghost predicate VersionOk(s: State) {
    forall u | u in s.updaters && s.updaters[u].Unlocking? :: s.version == s.updaters[u].ver
  }

  lemma StepKeepsVersion(s: State, step: Step)
    requires Exclusive(s) && VersionOk(s) && Enabled(s, step)
    ensures VersionOk(Do(s, step))
  {
  }

  lemma {:induction false} VersionAlongRun(states: seq<State>, steps: seq<Step>, i: nat)
    requires Run(states, steps) && i < |states|
    ensures VersionOk(states[i])
  {
    if i > 0 {
      VersionAlongRun(states, steps, i - 1);
      InvAlongRun(states, steps, i - 1);
      StepKeepsVersion(states[i - 1], steps[i - 1]);
    }
  }

  /** What an update publishes is its own: when it unlocks, both maps are those it built and the
      version is the one it came with. */
  lemma UpdatesPublishTheirOwn(states: seq<State>, steps: seq<Step>, i: nat, u: int)
    requires Run(states, steps) && i < |states| && u in states[i].updaters && states[i].updaters[u].Unlocking?
    ensures var s, upd := states[i], states[i].updaters[u];
            s.apps == s.globals == upd.h && s.version == upd.ver
  {
    InvAlongRun(states, steps, i);
    VersionAlongRun(states, steps, i);
  }

  // ----- freshness needs updates one at a time -----

  /** No update begins while another is going on. */
  ghost predicate OneAtATime(states: seq<State>, steps: seq<Step>)
    requires Run(states, steps)
  {
    forall i | 0 <= i < |steps| && steps[i].Begin? :: states[i].updaters == map[]
  }

  ghost predicate Underway(s: State) {
    exists u | u in s.updaters :: !s.updaters[u].Persisting?
  }

  /** What is published is the newest store state, up to the update going on. */
  ghost predicate Fresh(s: State) {
    && (forall u, v | u in s.updaters && v in s.updaters :: u == v)
    && (s.apps == s.states - 1 || Underway(s))
    && (forall u | u in s.updaters && (s.updaters[u].Publishing? || HoldsWrite(s.updaters[u])) ::
          s.updaters[u].h == s.states - 1)
  }

  lemma StepKeepsFresh(s: State, step: Step)
    requires Whole(s) && Fresh(s) && Enabled(s, step) && (step.Begin? ==> s.updaters == map[])
    ensures Fresh(Do(s, step))
    ensures Do(s, step).apps >= s.apps
  {
    var t := Do(s, step);
    if t.apps != t.states - 1 {
      if step.Persist? {
        assert t.updaters[step.u].Reloading?;
      } else {
        var u :| u in s.updaters && !s.updaters[u].Persisting?;
        assert u in t.updaters && !t.updaters[u].Persisting?;
      }
    }
  }

  lemma {:induction false} FreshAlongRun(states: seq<State>, steps: seq<Step>, i: nat)
    requires Run(states, steps) && OneAtATime(states, steps) && i < |states|
    ensures Fresh(states[i])
  {
    if i > 0 {
      FreshAlongRun(states, steps, i - 1);
      InvAlongRun(states, steps, i - 1);
      StepKeepsFresh(states[i - 1], steps[i - 1]);
    }
  }

  /** When updates are handled one at a time, the published index never goes back to an
      older store state, and with no update going on it is the newest one. */
  lemma SerialUpdatesStayFresh(states: seq<State>, steps: seq<Step>, i: nat)
    requires Run(states, steps) && OneAtATime(states, steps) && i < |states|
    ensures states[i].updaters == map[] ==> states[i].apps == states[i].globals == states[i].states - 1
    ensures i > 0 ==> states[i - 1].apps <= states[i].apps
  {
    FreshAlongRun(states, steps, i);
    InvAlongRun(states, steps, i);
    if i > 0 {
      FreshAlongRun(states, steps, i - 1);
      InvAlongRun(states, steps, i - 1);
      StepKeepsFresh(states[i - 1], steps[i - 1]);
    }
  }

  // ----- exactly when overlapping updates stay fresh -----

  /** A continuation of any state: no update begins any more. */
  ghost predicate Path(s: State, states: seq<State>, steps: seq<Step>) {
    && |states| == |steps| + 1 && states[0] == s
    && forall i | 0 <= i < |steps| ::
         !steps[i].Begin? && Enabled(states[i], steps[i]) && states[i + 1] == Do(states[i], steps[i])
  }

  ghost predicate Newest(s: State) {
    s.apps == s.globals == s.states - 1
  }

  ghost predicate EndsNewest(s: State, states: seq<State>, steps: seq<Step>) {
    Path(s, states, steps) && states[|steps|].updaters == map[] ==> Newest(states[|steps|])
  }

  /** Whatever the order in which the updates under way go on, once they are all done the
      published index is that of the newest store state. */
  ghost predicate EveryScheduleEndsNewest(s: State) {
    forall states: seq<State>, steps: seq<Step> :: EndsNewest(s, states, steps)
  }

  predicate NonePersisting(s: State) {
    forall u | u in s.updaters :: !s.updaters[u].Persisting?
  }

  /** Either the index is the newest and at most one update is under way, not yet committed; or
      some are under way, all committed, and those that have read the store back hold its
      newest state. */
  predicate Settled(s: State) {
    || (s.apps == s.globals == s.states - 1
        && (forall u, v | u in s.updaters && v in s.updaters :: u == v)
        && (forall u | u in s.updaters :: s.updaters[u].Persisting?))
    || (s.updaters != map[] && NonePersisting(s)
        && (forall u | u in s.updaters && !s.updaters[u].Reloading? :: s.updaters[u].h == s.states - 1))
  }

  lemma StepKeepsSettled(s: State, step: Step)
    requires Exclusive(s) && Whole(s) && Settled(s) && Enabled(s, step) && !step.Begin?
    ensures Settled(Do(s, step))
  {
    var t := Do(s, step);
    if t.updaters == map[] && s.updaters != map[] && NonePersisting(s) {
      assert step.Swap? && s.updaters[step.u].Unlocking?;
    }
  }

  lemma {:induction false} PathKeepsSettled(s: State, states: seq<State>, steps: seq<Step>, i: nat)
    requires Exclusive(s) && Whole(s) && ReadersOk(s) && Settled(s) && Path(s, states, steps) && i < |states|
    ensures Exclusive(states[i]) && Whole(states[i]) && ReadersOk(states[i]) && Settled(states[i])
    decreases i
  {
    if i > 0 {
      PathKeepsSettled(s, states, steps, i - 1);
      StepKeepsExclusive(states[i - 1], steps[i - 1]);
      StepKeepsWhole(states[i - 1], steps[i - 1]);
      StepKeepsReaders(states[i - 1], steps[i - 1]);
      StepKeepsSettled(states[i - 1], steps[i - 1]);
    }
  }

  predicate Free(s: State) {
    WriteFree(s) && ReadFree(s)
  }

  lemma More(s: State, states: seq<State>, steps: seq<Step>, step: Step)
    returns (states': seq<State>, steps': seq<Step>)
    requires Path(s, states, steps) && !step.Begin? && Enabled(states[|steps|], step)
    ensures Path(s, states', steps') && states'[|steps'|] == Do(states[|steps|], step)
  {
    states', steps' := states + [Do(states[|steps|], step)], steps + [step];
  }

  /** An update that has read the store back publishes without interruption. */
  lemma Publish(s: State, states: seq<State>, steps: seq<Step>, u: int)
    returns (states': seq<State>, steps': seq<Step>)
    requires Path(s, states, steps) && Free(states[|steps|])
    requires u in states[|steps|].updaters && states[|steps|].updaters[u].Publishing?
    ensures Path(s, states', steps') && Free(states'[|steps'|])
    ensures var t := states[|steps|];
            states'[|steps'|] == t.(apps := t.updaters[u].h, globals := t.updaters[u].h, version := t.updaters[u].ver,
                                    updaters := t.updaters - {u})
  {
    var t := states[|steps|];
    states', steps' := More(s, states, steps, LockWrite(u));
    states', steps' := More(s, states', steps', Swap(u));
    states', steps' := More(s, states', steps', Swap(u));
    states', steps' := More(s, states', steps', Swap(u));
    assert states'[|steps'|].updaters[u].Unlocking?;
    states', steps' := More(s, states', steps', Swap(u));
    assert states'[|steps'|].updaters == t.updaters - {u};
  }

  /** Any update that holds no lock can come to its end without a new store state. */
  lemma Finish(s: State, states: seq<State>, steps: seq<Step>, u: int)
    returns (states': seq<State>, steps': seq<Step>)
    requires Path(s, states, steps) && Free(states[|steps|]) && states[|steps|].states > 0
    requires u in states[|steps|].updaters
    ensures Path(s, states', steps') && Free(states'[|steps'|])
    ensures var t, t' := states[|steps|], states'[|steps'|];
            t'.updaters == t.updaters - {u} && t'.states == t.states
  {
    var t := states[|steps|];
    if t.updaters[u].Persisting? {
      states', steps' := More(s, states, steps, Refuse(u));
    } else if t.updaters[u].Reloading? {
      states', steps' := More(s, states, steps, Reload(u));
      states', steps' := Publish(s, states', steps', u);
      assert states'[|steps'|].updaters == t.updaters - {u};
    } else {
      assert !HoldsWrite(t.updaters[u]);
      states', steps' := Publish(s, states, steps, u);
    }
  }

  lemma {:induction false} Drain(s: State, states: seq<State>, steps: seq<Step>, v: int)
    returns (states': seq<State>, steps': seq<Step>)
    requires Path(s, states, steps) && Free(states[|steps|]) && states[|steps|].states > 0
    requires v in states[|steps|].updaters
    ensures Path(s, states', steps') && Free(states'[|steps'|])
    ensures var t, t' := states[|steps|], states'[|steps'|];
            t'.updaters == map[v := t.updaters[v]] && t'.states == t.states
    decreases |states[|steps|].updaters|
  {
    var t := states[|steps|];
    if forall u | u in t.updaters :: u == v {
      states', steps' := states, steps;
      assert t.updaters.Keys == {v};
    } else {
      var u :| u in t.updaters && u != v;
      states', steps' := Finish(s, states, steps, u);
      assert states'[|steps'|].updaters.Keys < t.updaters.Keys;
      Fewer(states'[|steps'|].updaters.Keys, t.updaters.Keys);
      states', steps' := Drain(s, states', steps', v);
    }
  }

  lemma Fewer(a: set<int>, b: set<int>)
    requires a < b
    ensures |a| < |b|
  {
    assert b == a + (b - a);
    assert b - a != {};
  }

  /** An update that holds an older index can come last. */
  lemma StaleComesLast(s: State, states: seq<State>, steps: seq<Step>, v: int)
    requires Path(s, states, steps) && Free(states[|steps|]) && v in states[|steps|].updaters
    requires states[|steps|].updaters[v].Publishing? && states[|steps|].updaters[v].h < states[|steps|].states - 1
    ensures !EveryScheduleEndsNewest(s)
  {
    var states', steps' := Drain(s, states, steps, v);
    states', steps' := Publish(s, states', steps', v);
    assert states'[|steps'|].updaters == map[];
    assert !EndsNewest(s, states', steps');
  }

  /** While one update has not committed, any other one can be overtaken by it: it reads the
      store back first and publishes last. */
  lemma OverlappingUpdatesGoStale(s: State, u: int, v: int)
    requires Free(s) && Whole(s) && u != v && u in s.updaters && v in s.updaters && s.updaters[u].Persisting?
    ensures !EveryScheduleEndsNewest(s)
  {
    var states, steps := [s], [];
    if s.updaters[v].Persisting? {
      states, steps := More(s, states, steps, Persist(v));
    }
    if states[|steps|].updaters[v].Reloading? {
      states, steps := More(s, states, steps, Reload(v));
    }
    assert !HoldsWrite(s.updaters[v]);
    var t := states[|steps|];
    assert t.updaters[v].Publishing? && t.updaters[v].h < t.states && t.updaters[u].Persisting? && Free(t);
    states, steps := More(s, states, steps, Persist(u));
    StaleComesLast(s, states, steps, v);
  }

  lemma UnsettledGoesStale(s: State)
    requires Free(s) && Whole(s) && !Settled(s)
    ensures !EveryScheduleEndsNewest(s)
  {
    if s.updaters == map[] {
      assert !EndsNewest(s, [s], []);
    } else if NonePersisting(s) {
      var v :| v in s.updaters && !s.updaters[v].Reloading? && s.updaters[v].h != s.states - 1;
      assert !HoldsWrite(s.updaters[v]);
      StaleComesLast(s, [s], [], v);
    } else {
      var u :| u in s.updaters && s.updaters[u].Persisting?;
      if v :| v in s.updaters && v != u {
        OverlappingUpdatesGoStale(s, u, v);
      } else {
        assert forall v | v in s.updaters :: v == u;
        assert s.updaters - {u} == map[];
        var states, steps := More(s, [s], [], Refuse(u));
        assert states[|steps|].updaters == map[];
        assert !EndsNewest(s, states, steps);
      }
    }
  }

  /** The handlers run as goroutines, so updates may overlap.  From a reachable state in which
      nobody holds the lock, every schedule of the updates under way ends on the newest store
      state iff the state is settled; otherwise an older index can be published last and stay. */
  lemma OverlappingUpdatesConvergeIff(states: seq<State>, steps: seq<Step>)
    requires Run(states, steps) && Free(states[|steps|])
    ensures EveryScheduleEndsNewest(states[|steps|]) <==> Settled(states[|steps|])
  {
    var s := states[|steps|];
    InvAlongRun(states, steps, |steps|);
    if Settled(s) {
      forall more: seq<State>, moreSteps: seq<Step> ensures EndsNewest(s, more, moreSteps) {
        if Path(s, more, moreSteps) {
          PathKeepsSettled(s, more, moreSteps, |moreSteps|);
        }
      }
    } else {
      UnsettledGoesStale(s);
    }
  }
}
