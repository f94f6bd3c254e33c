/**
 The dispatcher's wakeups (internal/cp/events/dispatcher.go) as a step machine: callers of
 Wakeup take the mutex, look the channel up, create channel and worker when it is missing,
 release the mutex and offer one token without blocking; each worker takes tokens, and for
 each one looks for the gateway's connection and, if there is one, reads the log and delivers.
 A new connection tests that there is none yet, registers, and is then reconciled, which reads
 the log as well; when it ends it removes its gateway's entry, whosever that is (Connect in
 internal/cp/platform/cp_grpc/stream_handler.go, Register and Unregister in registry.go).
 Every step is atomic, in any order.
 */
module Wakeup {
  import opened Wrappers

  datatype CallerPc =
    | Calling(g: string)    // before wakeMu.Lock
    | Locked(g: string)     // holds the mutex, before the lookup
    | Missing(g: string)    // holds the mutex, found no channel
    | Found(g: string)      // holds the mutex, has a channel
    | Offering(g: string)   // released the mutex, before the non-blocking send

  /** Looking: before GetConnection; Reading: with a connection, before the log is read. */
  datatype WorkerPc = Waiting | Looking | Reading | Delivering(seen: nat)

  /** How far a connection is, and what its reconciliation read. */
  datatype Phase = Tested | Registered | Reconciled(seen: nat) | Ended

  datatype Connection = Connection(g: string, phase: Phase)

  datatype Worker = Worker(g: string, pc: WorkerPc)

  datatype State = State(
    chans: map<string, bool>,        // the one-slot channel of a gateway: token or empty
    workers: seq<Worker>,
    lock: Option<int>,               // the caller that holds wakeMu
    callers: map<int, CallerPc>,
    registry: map<string, int>,      // the registered connection of each gateway
    conns: map<int, Connection>,     // every connection there ever was
    committed: map<string, nat>)     // events committed to each gateway's log

  function Committed(s: State, g: string): nat {
    if g in s.committed then s.committed[g] else 0
  }

  predicate Token(s: State, g: string) {
    g in s.chans && s.chans[g]
  }

  datatype Step =
    | Commit(g: string)
    | Call(c: int, g: string)
    | Acquire(c: int)
    | Lookup(c: int)
    | Make(c: int)
    | Release(c: int)
    | Offer(c: int)
    | Take(w: nat)
    | Look(w: nat)
    | Read(w: nat)
    | Finish(w: nat)
    | Test(id: int, g: string)
    | Register(id: int)
    | Reconcile(id: int)
    | Unregister(id: int)

  predicate Enabled(s: State, step: Step) {
    match step
    case Commit(_) => true
    case Call(c, _) => c !in s.callers
    case Acquire(c) => c in s.callers && s.callers[c].Calling? && s.lock.None?
    case Lookup(c) => c in s.callers && s.callers[c].Locked?
    case Make(c) => c in s.callers && s.callers[c].Missing?
    case Release(c) => c in s.callers && s.callers[c].Found?
    case Offer(c) => c in s.callers && s.callers[c].Offering?
    case Take(w) => w < |s.workers| && s.workers[w].pc.Waiting? && Token(s, s.workers[w].g)
    case Look(w) => w < |s.workers| && s.workers[w].pc.Looking?
    case Read(w) => w < |s.workers| && s.workers[w].pc.Reading?
    case Finish(w) => w < |s.workers| && s.workers[w].pc.Delivering?
    case Test(id, g) => id !in s.conns && g !in s.registry
    case Register(id) => id in s.conns && s.conns[id].phase.Tested?
    case Reconcile(id) => id in s.conns && s.conns[id].phase.Registered?
    case Unregister(id) => id in s.conns && (s.conns[id].phase.Registered? || s.conns[id].phase.Reconciled?)
  }

  function SetPc(s: State, w: nat, pc: WorkerPc): seq<Worker>
    requires w < |s.workers|
  {
    s.workers[w := s.workers[w].(pc := pc)]
  }

  function Do(s: State, step: Step): State
    requires Enabled(s, step)
  {
    match step
    case Commit(g) => s.(committed := s.committed[g := Committed(s, g) + 1])
    case Call(c, g) => s.(callers := s.callers[c := Calling(g)])
    case Acquire(c) => s.(lock := Some(c), callers := s.callers[c := Locked(s.callers[c].g)])
    case Lookup(c) =>
      var g := s.callers[c].g;
      s.(callers := s.callers[c := if g in s.chans then Found(g) else Missing(g)])
    case Make(c) =>
      var g := s.callers[c].g;
      s.(chans := s.chans[g := false], workers := s.workers + [Worker(g, Waiting)],
         callers := s.callers[c := Found(g)])
    case Release(c) => s.(lock := None, callers := s.callers[c := Offering(s.callers[c].g)])
    case Offer(c) =>
      // the channel holds one token: a send finds room or the token is there already
      s.(chans := s.chans[s.callers[c].g := true], callers := s.callers - {c})
    case Take(w) => s.(chans := s.chans[s.workers[w].g := false], workers := SetPc(s, w, Looking))
    case Look(w) => s.(workers := SetPc(s, w, if s.workers[w].g in s.registry then Reading else Waiting))
    case Read(w) => s.(workers := SetPc(s, w, Delivering(Committed(s, s.workers[w].g))))
    case Finish(w) => s.(workers := SetPc(s, w, Waiting))
    case Test(id, g) => s.(conns := s.conns[id := Connection(g, Tested)])
    // a connection that is registered already is displaced
    case Register(id) =>
      var g := s.conns[id].g;
      s.(registry := s.registry[g := id], conns := s.conns[id := Connection(g, Registered)])
    case Reconcile(id) =>
      var g := s.conns[id].g;
      s.(conns := s.conns[id := Connection(g, Reconciled(Committed(s, g)))])
    case Unregister(id) =>
      var g := s.conns[id].g;
      s.(registry := s.registry - {g}, conns := s.conns[id := Connection(g, Ended)])
  }

  ghost predicate Run(states: seq<State>, steps: seq<Step>) {
    && |states| == |steps| + 1
    && states[0] == State(map[], [], None, map[], map[], map[], map[])
    && forall i | 0 <= i < |steps| :: StepAt(states, steps, i)
  }

  ghost predicate StepAt(states: seq<State>, steps: seq<Step>, i: int)
    requires |states| == |steps| + 1 && 0 <= i < |steps|
  {
    Enabled(states[i], steps[i]) && states[i + 1] == Do(states[i], steps[i])
  }

  // ----- one worker for each channel -----

  predicate HoldsLock(pc: CallerPc) {
    pc.Locked? || pc.Missing? || pc.Found?
  }

  ghost predicate CallersOk(s: State) {
    && (forall c | c in s.callers && HoldsLock(s.callers[c]) :: s.lock == Some(c))
    && (forall c | c in s.callers && s.callers[c].Missing? :: s.callers[c].g !in s.chans)
    && (forall c | c in s.callers && (s.callers[c].Found? || s.callers[c].Offering?) :: s.callers[c].g in s.chans)
  }

  ghost predicate HasWorker(s: State, g: string) {
    exists i | 0 <= i < |s.workers| :: s.workers[i].g == g
  }

  ghost predicate WorkersOk(s: State) {
    && (forall i, j | 0 <= i < j < |s.workers| :: s.workers[i].g != s.workers[j].g)
    && (forall i | 0 <= i < |s.workers| :: s.workers[i].g in s.chans)
    && (forall g | g in s.chans :: HasWorker(s, g))
  }

  /** The registered connection of a gateway is one of its own and has not ended. */
  ghost predicate RegistryOk(s: State) {
    forall g | g in s.registry ::
      var id := s.registry[g];
      id in s.conns && s.conns[id].g == g && (s.conns[id].phase.Registered? || s.conns[id].phase.Reconciled?)
  }

  ghost predicate Inv(s: State) {
    CallersOk(s) && WorkersOk(s) && RegistryOk(s)
  }

  /** Only the lock holder creates a channel, so what a caller found out under the mutex
      stays true until it releases it. */
  lemma StepKeepsCallers(s: State, step: Step)
    requires CallersOk(s) && WorkersOk(s) && Enabled(s, step)
    ensures CallersOk(Do(s, step))
  {
  }

  lemma MakeKeepsWorkers(s: State, c: int)
    requires CallersOk(s) && WorkersOk(s) && Enabled(s, Make(c))
    ensures WorkersOk(Do(s, Make(c)))
  {
    var t := Do(s, Make(c));
    forall g | g in t.chans ensures HasWorker(t, g) {
      if g in s.chans {
        assert HasWorker(s, g);
        var i :| 0 <= i < |s.workers| && s.workers[i].g == g;
        assert t.workers[i].g == g;
      } else {
        assert t.workers[|s.workers|].g == g;
      }
    }
  }

  lemma SameWorkers(s: State, t: State)
    requires WorkersOk(s) && t.chans.Keys == s.chans.Keys && |t.workers| == |s.workers|
    requires forall i | 0 <= i < |s.workers| :: t.workers[i].g == s.workers[i].g
    ensures WorkersOk(t)
  {
    forall g | g in t.chans ensures HasWorker(t, g) {
      assert g in s.chans.Keys;
      var i :| 0 <= i < |s.workers| && s.workers[i].g == g;
      assert t.workers[i].g == g;
    }
  }

  lemma StepKeepsWorkers(s: State, step: Step)
    requires CallersOk(s) && WorkersOk(s) && Enabled(s, step)
    ensures WorkersOk(Do(s, step))
  {
    if step.Make? {
      MakeKeepsWorkers(s, step.c);
    } else {
      SameWorkers(s, Do(s, step));
    }
  }

  lemma StepKeepsRegistry(s: State, step: Step)
    requires RegistryOk(s) && Enabled(s, step)
    ensures RegistryOk(Do(s, step))
  {
  }

  lemma {:induction false} InvAlongRun(states: seq<State>, steps: seq<Step>, i: nat)
    requires Run(states, steps) && i < |states|
    ensures Inv(states[i])
  {
    if i > 0 {
      InvAlongRun(states, steps, i - 1);
      assert StepAt(states, steps, i - 1);
      StepKeepsCallers(states[i - 1], steps[i - 1]);
      StepKeepsWorkers(states[i - 1], steps[i - 1]);
      StepKeepsRegistry(states[i - 1], steps[i - 1]);
    }
  }

  /** In every interleaving a gateway that has a channel has exactly one worker, and while a
      token waits that worker can take it as soon as it is back at the channel. */
  lemma OneWorkerPerGateway(states: seq<State>, steps: seq<Step>, i: nat, g: string)
    requires Run(states, steps) && i < |states| && g in states[i].chans
    ensures var s := states[i];
            exists w: nat | w < |s.workers| ::
              && s.workers[w].g == g
              && (forall v | 0 <= v < |s.workers| && s.workers[v].g == g :: v == w)
              && (Token(s, g) && s.workers[w].pc.Waiting? ==> Enabled(s, Take(w)))
  {
    InvAlongRun(states, steps, i);
    var s := states[i];
    assert HasWorker(s, g);
    var w: nat :| w < |s.workers| && s.workers[w].g == g;
  }

  // ----- no wakeup is lost -----

  ghost predicate OfferAt(states: seq<State>, steps: seq<Step>, i: int, g: string)
    requires Run(states, steps)
  {
    0 <= i < |steps| && StepAt(states, steps, i) && steps[i].Offer? && states[i].callers[steps[i].c].g == g
  }

  ghost predicate TakeAt(states: seq<State>, steps: seq<Step>, i: int, g: string)
    requires Run(states, steps)
  {
    0 <= i < |steps| && StepAt(states, steps, i) && steps[i].Take? && states[i].workers[steps[i].w].g == g
  }

  ghost predicate LookAt(states: seq<State>, steps: seq<Step>, i: int, g: string)
    requires Run(states, steps)
  {
    0 <= i < |steps| && StepAt(states, steps, i) && steps[i].Look? && states[i].workers[steps[i].w].g == g
  }

  ghost predicate ReadAt(states: seq<State>, steps: seq<Step>, i: int, g: string)
    requires Run(states, steps)
  {
    0 <= i < |steps| && StepAt(states, steps, i) && steps[i].Read? && states[i].workers[steps[i].w].g == g
  }

  ghost predicate Busy(s: State, g: string, pc: WorkerPc) {
    exists w | 0 <= w < |s.workers| :: s.workers[w] == Worker(g, pc)
  }

  ghost predicate Taken(states: seq<State>, steps: seq<Step>, i: int, j: int, g: string)
    requires Run(states, steps)
  {
    exists k | i < k < j :: TakeAt(states, steps, k, g)
  }

  ghost predicate Looked(states: seq<State>, steps: seq<Step>, i: int, j: int, g: string)
    requires Run(states, steps)
  {
    exists m | i < m < j :: Taken(states, steps, i, m, g) && LookAt(states, steps, m, g)
  }

  /** A waiting token waits on or is taken by the worker, which then is about to look. */
  lemma TokenProgress(states: seq<State>, steps: seq<Step>, i: nat, j: nat, g: string)
    requires Run(states, steps) && i < j < |steps| && Token(states[j], g)
    ensures Token(states[j + 1], g) || (Taken(states, steps, i, j + 1, g) && Busy(states[j + 1], g, Looking))
  {
    var step := steps[j];
    assert StepAt(states, steps, j);
    if TakeAt(states, steps, j, g) {
      assert states[j + 1].workers[step.w] == Worker(g, Looking);
    } else {
      InvAlongRun(states, steps, j);
    }
  }

  /** A worker stays where it is until it takes its own next step. */
  lemma WorkerStays(states: seq<State>, steps: seq<Step>, j: nat, g: string, pc: WorkerPc)
    requires Run(states, steps) && j < |steps| && Busy(states[j], g, pc)
    requires pc == Looking ==> !LookAt(states, steps, j, g)
    requires pc == Reading ==> !ReadAt(states, steps, j, g)
    requires pc == Looking || pc == Reading
    ensures Busy(states[j + 1], g, pc)
  {
    var w :| 0 <= w < |states[j].workers| && states[j].workers[w] == Worker(g, pc);
    assert StepAt(states, steps, j);
    assert states[j + 1].workers[w] == Worker(g, pc);
  }

  lemma TakenStays(states: seq<State>, steps: seq<Step>, i: nat, j: nat, g: string)
    requires Run(states, steps) && Taken(states, steps, i, j, g)
    ensures Taken(states, steps, i, j + 1, g)
  {
    var k :| i < k < j && TakeAt(states, steps, k, g);
  }

  lemma LookedStays(states: seq<State>, steps: seq<Step>, i: nat, j: nat, g: string)
    requires Run(states, steps) && Looked(states, steps, i, j, g)
    ensures Looked(states, steps, i, j + 1, g)
  {
    var m :| i < m < j && Taken(states, steps, i, m, g) && LookAt(states, steps, m, g);
  }

  lemma LookingProgress(states: seq<State>, steps: seq<Step>, i: nat, j: nat, g: string)
    requires Run(states, steps) && i < j < |steps| && Taken(states, steps, i, j, g) && Busy(states[j], g, Looking)
    ensures (Taken(states, steps, i, j + 1, g) && Busy(states[j + 1], g, Looking)) || Looked(states, steps, i, j + 1, g)
  {
    TakenStays(states, steps, i, j, g);
    if !LookAt(states, steps, j, g) {
      WorkerStays(states, steps, j, g, Looking);
    }
  }

  ghost predicate Pending(states: seq<State>, steps: seq<Step>, i: nat, j: nat, g: string)
    requires Run(states, steps) && j < |states|
  {
    || Token(states[j], g)
    || (Taken(states, steps, i, j, g) && Busy(states[j], g, Looking))
    || Looked(states, steps, i, j, g)
  }

  lemma StepPending(states: seq<State>, steps: seq<Step>, i: nat, j: nat, g: string)
    requires Run(states, steps) && i < j < |steps| && Pending(states, steps, i, j, g)
    ensures Pending(states, steps, i, j + 1, g)
  {
    if Token(states[j], g) {
      TokenProgress(states, steps, i, j, g);
    } else if Looked(states, steps, i, j, g) {
      LookedStays(states, steps, i, j, g);
    } else {
      LookingProgress(states, steps, i, j, g);
    }
  }

  lemma {:induction false} WakeupProgress(states: seq<State>, steps: seq<Step>, i: nat, j: nat, g: string)
    requires Run(states, steps) && OfferAt(states, steps, i, g) && i < j < |states|
    ensures Pending(states, steps, i, j, g)
  {
    if j == i + 1 {
      assert StepAt(states, steps, i);
    } else {
      WakeupProgress(states, steps, i, j - 1, g);
      StepPending(states, steps, i, j - 1, g);
    }
  }

  lemma {:induction false} CommittedGrows(states: seq<State>, steps: seq<Step>, i: nat, j: nat, g: string)
    requires Run(states, steps) && i <= j < |states|
    ensures Committed(states[i], g) <= Committed(states[j], g)
  {
    if i < j {
      CommittedGrows(states, steps, i, j - 1, g);
      assert StepAt(states, steps, j - 1);
    }
  }

  /** No wakeup is lost: in every interleaving, once the channel of a gateway is empty and its
      worker is not about to look, every finished Wakeup was followed by a worker iteration that
      took a token and looked for a connection after it, and it goes on to read the log if it
      found one. */
  lemma NoWakeupLost(states: seq<State>, steps: seq<Step>, i: nat, j: nat, g: string)
    requires Run(states, steps) && OfferAt(states, steps, i, g) && i < j < |states|
    requires !Token(states[j], g) && !Busy(states[j], g, Looking)
    ensures exists k, m | i < k < m < j ::
              && TakeAt(states, steps, k, g)
              && LookAt(states, steps, m, g)
              && states[m + 1].workers[steps[m].w].pc == (if g in states[m].registry then Reading else Waiting)
  {
    WakeupProgress(states, steps, i, j, g);
    var m :| i < m < j && Taken(states, steps, i, m, g) && LookAt(states, steps, m, g);
    var k :| i < k < m && TakeAt(states, steps, k, g);
    assert StepAt(states, steps, m);
  }

  // ----- no event falls between the wakeups and a new connection -----

  /** The worker has read the log for delivery after step i. */
  ghost predicate WorkerRead(states: seq<State>, steps: seq<Step>, i: int, j: int, g: string)
    requires Run(states, steps)
  {
    exists m | i < m < j :: ReadAt(states, steps, m, g)
  }

  /** The reconciliation of the present connection has read, or will read, `n` events. */
  predicate ConnectionCovers(s: State, g: string, n: nat) {
    g !in s.registry || Covers(s, s.registry[g], n)
  }

  /** What the reconciliation of one connection has read, or will read. */
  predicate Covers(s: State, id: int, n: nat) {
    id in s.conns && (s.conns[id].phase.Registered? || (s.conns[id].phase.Reconciled? && n <= s.conns[id].phase.seen))
  }

  lemma StepKeepsCover(s: State, step: Step, g: string, n: nat)
    requires RegistryOk(s) && Enabled(s, step) && n <= Committed(s, g) && ConnectionCovers(s, g, n)
    ensures ConnectionCovers(Do(s, step), g, n)
  {
  }

  lemma CoverStays(states: seq<State>, steps: seq<Step>, i: nat, j: nat, g: string)
    requires Run(states, steps) && i <= j < |steps| && ConnectionCovers(states[j], g, Committed(states[i], g))
    ensures ConnectionCovers(states[j + 1], g, Committed(states[i], g))
  {
    assert StepAt(states, steps, j);
    CommittedGrows(states, steps, i, j, g);
    InvAlongRun(states, steps, j);
    StepKeepsCover(states[j], steps[j], g, Committed(states[i], g));
  }

  /** What a pending Wakeup leads to: the token, a worker about to look or to read, or an event
      log that was read or will be. */
  ghost predicate OnItsWay(states: seq<State>, steps: seq<Step>, i: nat, j: nat, g: string)
    requires Run(states, steps) && i < |states| && j < |states|
  {
    || Token(states[j], g) || Busy(states[j], g, Looking) || Busy(states[j], g, Reading)
    || WorkerRead(states, steps, i, j, g) || ConnectionCovers(states[j], g, Committed(states[i], g))
  }

  lemma LookLeadsOn(states: seq<State>, steps: seq<Step>, i: nat, j: nat, g: string)
    requires Run(states, steps) && i <= j < |steps| && LookAt(states, steps, j, g)
    ensures Busy(states[j + 1], g, Reading) || ConnectionCovers(states[j + 1], g, Committed(states[i], g))
  {
    assert StepAt(states, steps, j);
    if g in states[j].registry {
      assert states[j + 1].workers[steps[j].w] == Worker(g, Reading);
    }
  }

  lemma StepOnItsWay(states: seq<State>, steps: seq<Step>, i: nat, j: nat, g: string)
    requires Run(states, steps) && i < j < |steps| && OnItsWay(states, steps, i, j, g)
    ensures OnItsWay(states, steps, i, j + 1, g)
  {
    if WorkerRead(states, steps, i, j, g) {
      var m :| i < m < j && ReadAt(states, steps, m, g);
      assert WorkerRead(states, steps, i, j + 1, g);
    } else if ConnectionCovers(states[j], g, Committed(states[i], g)) {
      CoverStays(states, steps, i, j, g);
    } else if Busy(states[j], g, Reading) {
      if ReadAt(states, steps, j, g) {
        assert WorkerRead(states, steps, i, j + 1, g);
      } else {
        WorkerStays(states, steps, j, g, Reading);
      }
    } else if Busy(states[j], g, Looking) {
      if LookAt(states, steps, j, g) {
        LookLeadsOn(states, steps, i, j, g);
      } else {
        WorkerStays(states, steps, j, g, Looking);
      }
    } else {
      TokenProgress(states, steps, i, j, g);
    }
  }

  lemma {:induction false} OnItsWayAlongRun(states: seq<State>, steps: seq<Step>, i: nat, j: nat, g: string)
    requires Run(states, steps) && OfferAt(states, steps, i, g) && i < j < |states|
    ensures OnItsWay(states, steps, i, j, g)
  {
    if j == i + 1 {
      assert StepAt(states, steps, i);
    } else {
      OnItsWayAlongRun(states, steps, i, j - 1, g);
      StepOnItsWay(states, steps, i, j - 1, g);
    }
  }

  /** No event falls through: in every interleaving, once the channel of a gateway is empty and
      its worker neither looks nor reads, every event committed before a finished Wakeup has been
      read for delivery - by a worker iteration after that Wakeup, or by the reconciliation of
      the connection that is registered now (if it has not read yet, or there is none, the next
      one still will). */
  lemma NoEventFallsThrough(states: seq<State>, steps: seq<Step>, i: nat, j: nat, g: string)
    requires Run(states, steps) && OfferAt(states, steps, i, g) && i < j < |states|
    requires !Token(states[j], g) && !Busy(states[j], g, Looking) && !Busy(states[j], g, Reading)
    ensures || ConnectionCovers(states[j], g, Committed(states[i], g))
            || exists m | i < m < j ::
                 && ReadAt(states, steps, m, g)
                 && Committed(states[i], g) <= Committed(states[m], g)
                 && states[m + 1].workers[steps[m].w].pc == Delivering(Committed(states[m], g))
  {
    OnItsWayAlongRun(states, steps, i, j, g);
    if !ConnectionCovers(states[j], g, Committed(states[i], g)) {
      var m :| i < m < j && ReadAt(states, steps, m, g);
      CommittedGrows(states, steps, i, m, g);
      assert StepAt(states, steps, m);
    }
  }

  // ----- a connection that is no longer registered -----

  lemma Extended(states: seq<State>, steps: seq<Step>, step: Step) returns (states': seq<State>, steps': seq<Step>)
    requires Run(states, steps) && Enabled(states[|steps|], step)
    ensures Run(states', steps') && states'[|steps'|] == Do(states[|steps|], step)
    ensures steps' == steps + [step] && states <= states'
  {
    states', steps' := states + [Do(states[|steps|], step)], steps + [step];
    forall i | 0 <= i < |steps'| ensures StepAt(states', steps', i) {
      assert i < |steps| ==> StepAt(states, steps, i);
    }
  }

  ghost predicate NoRead(steps: seq<Step>) {
    forall i | 0 <= i < |steps| :: !steps[i].Read?
  }

  /** Nobody has called Wakeup yet. */
  function Asleep(registry: map<string, int>, conns: map<int, Connection>): State {
    State(map[], [], None, map[], registry, conns, map[])
  }

  lemma BothTested(g: string) returns (states: seq<State>, steps: seq<Step>)
    ensures Run(states, steps) && NoRead(steps)
    ensures states[|steps|] == Asleep(map[], map[1 := Connection(g, Tested), 2 := Connection(g, Tested)])
  {
    states, steps := [Asleep(map[], map[])], [];
    states, steps := Extended(states, steps, Test(1, g));
    states, steps := Extended(states, steps, Test(2, g));
  }

  lemma BothRegistered(g: string) returns (states: seq<State>, steps: seq<Step>)
    ensures Run(states, steps) && NoRead(steps)
    ensures states[|steps|] ==
            Asleep(map[g := 2], map[1 := Connection(g, Registered), 2 := Connection(g, Registered)])
  {
    states, steps := BothTested(g);
    states, steps := Extended(states, steps, Register(1));
    states, steps := Extended(states, steps, Register(2));
  }

  /** Two connections of a gateway pass the test together; the second one displaces the first and
      is reconciled; then the first one ends and removes the entry of the second. */
  lemma Displaced(g: string) returns (states: seq<State>, steps: seq<Step>)
    ensures Run(states, steps) && NoRead(steps)
    ensures states[|steps|] ==
            Asleep(map[], map[1 := Connection(g, Ended), 2 := Connection(g, Reconciled(0))])
  {
    states, steps := BothRegistered(g);
    states, steps := Extended(states, steps, Reconcile(2));
    states, steps := Extended(states, steps, Unregister(1));
  }

  /** An event is committed, and a caller of Wakeup finds no channel. */
  lemma FirstCall(states: seq<State>, steps: seq<Step>, g: string, conns: map<int, Connection>)
    returns (states': seq<State>, steps': seq<Step>)
    requires Run(states, steps) && NoRead(steps) && states[|steps|] == Asleep(map[], conns)
    ensures Run(states', steps') && NoRead(steps')
    ensures states'[|steps'|] == State(map[], [], Some(0), map[0 := Missing(g)], map[], conns, map[g := 1])
  {
    states', steps' := Extended(states, steps, Commit(g));
    states', steps' := Extended(states', steps', Call(0, g));
    states', steps' := Extended(states', steps', Acquire(0));
    states', steps' := Extended(states', steps', Lookup(0));
  }

  /** It creates channel and worker and offers the token. */
  lemma FirstOffer(states: seq<State>, steps: seq<Step>, g: string, conns: map<int, Connection>)
    returns (states': seq<State>, steps': seq<Step>)
    requires Run(states, steps) && NoRead(steps)
    requires states[|steps|] == State(map[], [], Some(0), map[0 := Missing(g)], map[], conns, map[g := 1])
    ensures Run(states', steps') && NoRead(steps') && steps' != []
    ensures OfferAt(states', steps', |steps'| - 1, g) && Committed(states'[|steps'| - 1], g) == 1
    ensures states'[|steps'|] == State(map[g := true], [Worker(g, Waiting)], None, map[], map[], conns, map[g := 1])
  {
    states', steps' := Extended(states, steps, Make(0));
    states', steps' := Extended(states', steps', Release(0));
    var before := states'[|steps'|];
    assert before ==
           State(map[g := false], [Worker(g, Waiting)], None, map[0 := Offering(g)], map[], conns, map[g := 1]);
    states', steps' := Extended(states', steps', Offer(0));
    assert before.callers - {0} == map[];
    assert StepAt(states', steps', |steps'| - 1) && states'[|steps'| - 1] == before;
  }

  /** Being registered is needed: the worker finds no connection, and the event is read neither
      by it nor by the reconciliation of a connection that is still open. */
  lemma DisplacedConnectionMissesEvents(g: string) returns (states: seq<State>, steps: seq<Step>, i: nat)
    ensures Run(states, steps) && OfferAt(states, steps, i, g) && NoRead(steps)
    ensures var s := states[|steps|];
            && !Token(s, g) && !Busy(s, g, Looking) && !Busy(s, g, Reading)
            && 2 in s.conns && s.conns[2] == Connection(g, Reconciled(0)) && !Covers(s, 2, Committed(states[i], g))
  {
    states, steps := Displaced(g);
    var conns := states[|steps|].conns;
    states, steps := FirstCall(states, steps, g, conns);
    states, steps := FirstOffer(states, steps, g, conns);
    i := |steps| - 1;
    states, steps := Extended(states, steps, Take(0));
    states, steps := Extended(states, steps, Look(0));
    assert states[|steps|].workers == [Worker(g, Waiting)];
  }

  // ----- no round without a wakeup -----

  predicate Offers(s: State, step: Step, g: string) {
    step.Offer? && step.c in s.callers && s.callers[step.c].g == g
  }

  predicate Takes(s: State, step: Step, g: string) {
    step.Take? && step.w < |s.workers| && s.workers[step.w].g == g
  }

  predicate Looks(s: State, step: Step, g: string) {
    step.Look? && step.w < |s.workers| && s.workers[step.w].g == g
  }

  predicate Reads(s: State, step: Step, g: string) {
    step.Read? && step.w < |s.workers| && s.workers[step.w].g == g
  }

  function One(b: bool): nat {
    if b then 1 else 0
  }

  /** How many of the first n steps offered, took, looked and read for a gateway. */
  datatype Tally = Tally(offers: nat, takes: nat, looks: nat, logReads: nat)

  function TallyOf(states: seq<State>, steps: seq<Step>, n: nat, g: string): Tally
    requires |states| == |steps| + 1 && n <= |steps|
  {
    if n == 0 then Tally(0, 0, 0, 0)
    else
      var before, s, step := TallyOf(states, steps, n - 1, g), states[n - 1], steps[n - 1];
      Tally(before.offers + One(Offers(s, step, g)), before.takes + One(Takes(s, step, g)),
            before.looks + One(Looks(s, step, g)), before.logReads + One(Reads(s, step, g)))
  }

  lemma SoleWorker(s: State, w: nat, v: nat, g: string)
    requires WorkersOk(s) && w < |s.workers| && v < |s.workers| && s.workers[w].g == g == s.workers[v].g
    ensures w == v
  {
  }

  lemma TokensBalance(s: State, step: Step, g: string)
    requires Inv(s) && Enabled(s, step)
    ensures One(Token(Do(s, step), g)) + One(Takes(s, step, g)) <= One(Token(s, g)) + One(Offers(s, step, g))
  {
  }

  /** Where the worker of a gateway is, if there is one. */
  lemma BusyAt(s: State, g: string, w: nat, pc: WorkerPc)
    requires WorkersOk(s) && w < |s.workers| && s.workers[w].g == g
    ensures Busy(s, g, pc) <==> s.workers[w].pc == pc
  {
    if s.workers[w].pc == pc {
      assert s.workers[w] == Worker(g, pc);
    }
    if Busy(s, g, pc) {
      var v :| 0 <= v < |s.workers| && s.workers[v] == Worker(g, pc);
      SoleWorker(s, w, v, g);
    }
  }

  lemma NobodyBusy(s: State, t: State, g: string, pc: WorkerPc)
    requires |s.workers| <= |t.workers|
    requires forall w | 0 <= w < |s.workers| && s.workers[w].g == g :: t.workers[w] == s.workers[w]
    requires forall w | 0 <= w < |t.workers| && t.workers[w].g == g ::
               if w < |s.workers| then s.workers[w].g == g else t.workers[w].pc == Waiting
    requires pc != Waiting
    ensures Busy(t, g, pc) <==> Busy(s, g, pc)
  {
    if w :| 0 <= w < |s.workers| && s.workers[w] == Worker(g, pc) {
      assert t.workers[w] == Worker(g, pc);
    }
    if w :| 0 <= w < |t.workers| && t.workers[w] == Worker(g, pc) {
      assert s.workers[w] == Worker(g, pc);
    }
  }

  predicate Moves(s: State, step: Step, g: string) {
    (step.Take? || step.Look? || step.Read? || step.Finish?) && step.w < |s.workers| && s.workers[step.w].g == g
  }

  lemma OthersLeaveWorker(s: State, step: Step, g: string, pc: WorkerPc)
    requires Enabled(s, step) && !Moves(s, step, g) && pc != Waiting
    ensures Busy(Do(s, step), g, pc) <==> Busy(s, g, pc)
  {
    NobodyBusy(s, Do(s, step), g, pc);
  }

  lemma WorkerMoves(s: State, step: Step, g: string)
    requires Inv(s) && Enabled(s, step) && Moves(s, step, g)
    ensures Busy(s, g, Looking) <==> step.Look?
    ensures Busy(s, g, Reading) <==> step.Read?
    ensures Busy(Do(s, step), g, Looking) <==> step.Take?
    ensures Busy(Do(s, step), g, Reading) ==> step.Look?
  {
    var t := Do(s, step);
    StepKeepsWorkers(s, step);
    BusyAt(s, g, step.w, Looking);
    BusyAt(s, g, step.w, Reading);
    BusyAt(t, g, step.w, Looking);
    BusyAt(t, g, step.w, Reading);
  }

  lemma RoundsBalance(s: State, step: Step, g: string)
    requires Inv(s) && Enabled(s, step)
    ensures var t := Do(s, step);
            && One(Busy(t, g, Looking)) + One(Looks(s, step, g)) == One(Busy(s, g, Looking)) + One(Takes(s, step, g))
            && One(Busy(t, g, Reading)) + One(Reads(s, step, g)) <= One(Busy(s, g, Reading)) + One(Looks(s, step, g))
  {
    if Moves(s, step, g) {
      WorkerMoves(s, step, g);
    } else {
      OthersLeaveWorker(s, step, g, Looking);
      OthersLeaveWorker(s, step, g, Reading);
    }
  }

  /** The worker does nothing unasked: in every interleaving it has taken at most one token for
      each finished Wakeup, looked once for each token, and read the log at most once for each
      look. */
  lemma {:induction false} NoRoundUnasked(states: seq<State>, steps: seq<Step>, i: nat, g: string)
    requires Run(states, steps) && i < |states|
    ensures var n, s := TallyOf(states, steps, i, g), states[i];
            && n.takes + One(Token(s, g)) <= n.offers
            && n.looks + One(Busy(s, g, Looking)) == n.takes
            && n.logReads + One(Busy(s, g, Reading)) <= n.looks
  {
    if i > 0 {
      NoRoundUnasked(states, steps, i - 1, g);
      InvAlongRun(states, steps, i - 1);
      assert StepAt(states, steps, i - 1);
      TokensBalance(states[i - 1], steps[i - 1], g);
      RoundsBalance(states[i - 1], steps[i - 1], g);
    }
  }

  // ----- when open connections are registered -----

  predicate Open(s: State, id: int) {
    id in s.conns && (s.conns[id].phase.Registered? || s.conns[id].phase.Reconciled?)
  }

  /** A connection registers right after its test. */
  ghost predicate Uninterrupted(steps: seq<Step>) {
    forall i | 0 <= i < |steps| && steps[i].Register? :: i > 0 && steps[i - 1].Test? && steps[i - 1].id == steps[i].id
  }

  ghost predicate OpenAreRegistered(s: State) {
    forall id | Open(s, id) :: s.conns[id].g in s.registry && s.registry[s.conns[id].g] == id
  }

  lemma StepKeepsOpen(s: State, step: Step)
    requires OpenAreRegistered(s) && Enabled(s, step)
    requires step.Register? ==> s.conns[step.id].g !in s.registry
    ensures OpenAreRegistered(Do(s, step))
  {
  }

  /** If nothing comes between the test and the registration of a connection, no connection is
      ever displaced: every open one is the registered one of its gateway. */
  lemma {:induction false} OpenConnectionIsRegistered(states: seq<State>, steps: seq<Step>, i: nat)
    requires Run(states, steps) && Uninterrupted(steps) && i < |states|
    ensures OpenAreRegistered(states[i])
  {
    if i > 0 {
      OpenConnectionIsRegistered(states, steps, i - 1);
      assert StepAt(states, steps, i - 1);
      if steps[i - 1].Register? {
        assert StepAt(states, steps, i - 2);
      }
      StepKeepsOpen(states[i - 1], steps[i - 1]);
    }
  }
}
