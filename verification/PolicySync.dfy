/**
 The policy protocol between control plane and gateway, from a gateway's first snapshot on:
 mutations are written, deltas are sent for sequences the gateway reported, and the gateway's
 handlers, which run as goroutines, first read the checkpoint and later apply their bundle
 without looking at it again (Distribute and PushDelta in policy_distribution.go,
 handlePolicyUpdate in internal/gateway/grpc_client/stream.go).
 */
module PolicySync {
  import opened Wrappers
  import opened Rules
  import opened PolicyLog

  /** A delta bundle compiled when the log had `upTo` mutations for a gateway believed at
      `since`. */
  datatype Bundle = Bundle(since: nat, upTo: nat)

  /** A handler that has read the checkpoint and has not applied its bundle yet. */
  datatype Handler = Handler(bundle: Bundle, seen: nat)

  /** `cidr` is how the gateway reads networks, `base` the sequence of the first snapshot,
      `reported` every sequence the gateway ever reported in an acknowledgement or a Hello.  The
      control plane keeps the one recorded last; as handlers queue their acknowledgements in any
      order, that may be any of them. */
  datatype Sync = Sync(cidr: Cidr, log: seq<Mutation>, base: nat, st: Buckets, checkpoint: nat,
                       reported: set<nat>, inFlight: multiset<Bundle>, handlers: map<int, Handler>)

  datatype Step =
    | Mutate(m: Mutation)
    | Send(since: nat)
    | Lose(b: Bundle)
    | Arrive(h: int, b: Bundle)
    | Finish(h: int)
    | Report

  ghost predicate Enabled(s: Sync, step: Step) {
    match step
    case Mutate(m) => Legal(s.log + [m])
    case Send(g) => g in s.reported && g < |s.log|
    case Lose(b) => b in s.inFlight
    case Arrive(h, b) => b in s.inFlight && h !in s.handlers
    case Finish(h) => h in s.handlers && WellCut(s.log, s.handlers[h].bundle)
    case Report => true
  }

  predicate WellCut(log: seq<Mutation>, b: Bundle) {
    b.since < b.upTo <= |log|
  }

  function Delta(log: seq<Mutation>, b: Bundle): seq<Mutation>
    requires WellCut(log, b)
  {
    log[b.since..b.upTo]
  }

  /** The end of a handler: a bundle that is not above the checkpoint it read is only
      acknowledged, any other is applied as a whole or refused. */
  ghost function Finished(s: Sync, hd: Handler): Sync
    requires WellCut(s.log, hd.bundle)
  {
    if hd.bundle.upTo <= hd.seen then s.(reported := s.reported + {hd.seen})
    else
      var r := Take(s.cidr, s.st, Delta(s.log, hd.bundle));
      if r.None? then s
      else s.(st := r.value, checkpoint := hd.bundle.upTo, reported := s.reported + {hd.bundle.upTo})
  }

  ghost function Do(s: Sync, step: Step): Sync
    requires Enabled(s, step)
  {
    match step
    case Mutate(m) => s.(log := s.log + [m])
    case Send(g) => s.(inFlight := s.inFlight + multiset{Bundle(g, |s.log|)})
    case Lose(b) => s.(inFlight := s.inFlight - multiset{b})
    case Arrive(h, b) =>
      s.(inFlight := s.inFlight - multiset{b}, handlers := s.handlers[h := Handler(b, s.checkpoint)])
    case Finish(h) => Finished(s, s.handlers[h]).(handlers := s.handlers - {h})
    case Report => s.(reported := s.reported + {s.checkpoint})
  }

  /** Every live enabled policy compiles. */
  ghost predicate SnapshotCompiles(cidr: Cidr, f: Buckets) {
    forall k | k in SnapshotOf(f) :: CidrsParse(cidr, f.policies[k])
  }

  /** A gateway whose empty store has just been filled by its first snapshot; see
      FirstSnapshotTakenIff. */
  ghost predicate Start(s: Sync) {
    && Legal(s.log) && 0 < s.base == s.checkpoint <= |s.log|
    && s.st == Buckets(SnapshotOf(Fold(s.log[..s.base])), map[]) && SnapshotCompiles(s.cidr, Fold(s.log[..s.base]))
    && s.reported == {s.base} && s.inFlight == multiset{} && s.handlers == map[]
  }

  ghost predicate Path(s: Sync, states: seq<Sync>, steps: seq<Step>) {
    && |states| == |steps| + 1 && states[0] == s
    && forall i | 0 <= i < |steps| :: StepAt(states, steps, i)
  }

  ghost predicate StepAt(states: seq<Sync>, steps: seq<Step>, i: int)
    requires |states| == |steps| + 1 && 0 <= i < |steps|
  {
    Enabled(states[i], steps[i]) && states[i + 1] == Do(states[i], steps[i])
  }

  ghost predicate Run(states: seq<Sync>, steps: seq<Step>) {
    states != [] && Start(states[0]) && Path(states[0], states, steps)
  }

  // ----- what the gateway should hold -----

  /** Policies the first snapshot left out and no mutation has touched since. */
  function Absent(log: seq<Mutation>, base: nat, n: nat): set<PolicyKey>
    requires base <= n <= |log|
  {
    Disabled(Fold(log[..base])) - Keys(log[base..n])
  }

  /** The policies of the log up to `n`, but for the absent ones. */
  function Held(log: seq<Mutation>, base: nat, n: nat): map<PolicyKey, Rule>
    requires base <= n <= |log|
  {
    Fold(log[..n]).policies - Absent(log, base, n)
  }

  ghost predicate Right(s: Sync) {
    s.base <= s.checkpoint <= |s.log| && s.st.policies == Held(s.log, s.base, s.checkpoint)
  }

  /** The store holds what the log says up to `n`, with all tombstones after `base`. */
  ghost predicate StandsAt(st: Buckets, log: seq<Mutation>, base: nat, n: nat)
    requires base <= n <= |log|
  {
    Synced(st, Fold(log[..n]), Keys(log[base..n]), Absent(log, base, n))
  }

  // ----- the log in pieces -----

  lemma PartsOf(a: seq<Mutation>, b: seq<Mutation>, c: seq<Mutation>)
    requires LegalFrom(EMPTY, (a + b) + c)
    ensures LegalFrom(EMPTY, a) && Healthy(Fold(a))
    ensures LegalFrom(Fold(a), b) && FoldFrom(Fold(a), b) == Fold(a + b)
  {
    FromInParts(EMPTY, a + b, c);
    FromInParts(EMPTY, a, b);
    FoldIsHealthy(EMPTY, a);
  }

  lemma InThree(log: seq<Mutation>, i: nat, j: nat)
    requires i <= j <= |log|
    ensures log[..i] + log[i..j] == log[..j] && log[..j] + log[j..] == log
  {
  }

  lemma Parts(log: seq<Mutation>, i: nat, j: nat)
    requires LegalFrom(EMPTY, log) && i <= j <= |log|
    ensures LegalFrom(EMPTY, log[..i]) && Healthy(Fold(log[..i]))
    ensures LegalFrom(Fold(log[..i]), log[i..j]) && FoldFrom(Fold(log[..i]), log[i..j]) == Fold(log[..j])
  {
    InThree(log, i, j);
    PartsOf(log[..i], log[i..j], log[j..]);
  }

  lemma KeysOfParts(log: seq<Mutation>, i: nat, j: nat, k: nat)
    requires i <= j <= k <= |log|
    ensures Keys(log[i..k]) == Keys(log[i..j]) + Keys(log[j..k])
  {
    var a, b, c := log[i..j], log[j..k], log[i..k];
    forall x | x in Keys(c) ensures x in Keys(a) + Keys(b) {
      var n :| 0 <= n < |c| && Key(c[n].rule) == x;
      if n < j - i {
        assert Key(a[n].rule) == x;
      } else {
        assert Key(b[n - (j - i)].rule) == x;
      }
    }
    forall x | x in Keys(a) + Keys(b) ensures x in Keys(c) {
      if x in Keys(a) {
        var n :| 0 <= n < |a| && Key(a[n].rule) == x;
        assert Key(c[n].rule) == x;
      } else {
        var n :| 0 <= n < |b| && Key(b[n].rule) == x;
        assert Key(c[j - i + n].rule) == x;
      }
    }
  }

  lemma SegmentKeys(log: seq<Mutation>, base: nat, since: nat, checkpoint: nat, upTo: nat)
    requires base <= since <= checkpoint <= upTo <= |log|
    ensures log[since..upTo] == log[since..checkpoint] + log[checkpoint..upTo]
    ensures Keys(log[base..upTo]) == Keys(log[base..checkpoint]) + Keys(log[checkpoint..upTo])
    ensures Keys(log[since..checkpoint]) <= Keys(log[base..checkpoint])
  {
    KeysOfParts(log, base, since, checkpoint);
    KeysOfParts(log, base, checkpoint, upTo);
  }

  lemma DeltaFrom(st: Buckets, f0: Buckets, f: Buckets, b: seq<Mutation>, c: seq<Mutation>,
                  recent: set<PolicyKey>, absent: set<PolicyKey>)
    requires Healthy(f0) && LegalFrom(f0, b) && f == FoldFrom(f0, b) && LegalFrom(f, c)
    requires Synced(st, f, recent, absent) && Keys(b) <= recent
    ensures ApplyAll(st, b + c).Some? <==> Replayable(f, b)
    ensures ApplyAll(st, b + c).Some? ==>
              Synced(ApplyAll(st, b + c).value, FoldFrom(f, c), recent + Keys(c), absent - Keys(c))
  {
    OverlapAcceptedIff(st, f0, b, absent, c);
    FoldIsHealthy(f0, b);
    CleanDeltaConverges(st, f, recent, absent, c);
  }

  lemma StoreTakesIff(st: Buckets, log: seq<Mutation>, base: nat, since: nat, at: nat, upTo: nat)
    requires LegalFrom(EMPTY, log) && base <= since <= at <= upTo <= |log| && StandsAt(st, log, base, at)
    ensures var r := ApplyAll(st, log[since..upTo]);
            && (r.Some? <==> Replayable(Fold(log[..at]), log[since..at]))
            && (r.Some? ==> StandsAt(r.value, log, base, upTo))
  {
    Parts(log, since, at);
    Parts(log, at, upTo);
    SegmentKeys(log, base, since, at, upTo);
    DeltaFrom(st, Fold(log[..since]), Fold(log[..at]), log[since..at], log[at..upTo],
              Keys(log[base..at]), Absent(log, base, at));
    assert Absent(log, base, at) - Keys(log[at..upTo]) == Absent(log, base, upTo);
  }

  /** A bundle that ends at or above where the gateway stands is taken iff all its records
      compile and its overlap is replayable, and the gateway then stands where the bundle ends. */
  lemma DeliverIff(cidr: Cidr, st: Buckets, log: seq<Mutation>, base: nat, since: nat, at: nat, upTo: nat)
    requires LegalFrom(EMPTY, log) && base <= since <= at <= upTo <= |log| && StandsAt(st, log, base, at)
    ensures var r := Take(cidr, st, log[since..upTo]);
            && (r.Some? <==> Compiles(cidr, log[since..upTo]) && Replayable(Fold(log[..at]), log[since..at]))
            && (r.Some? ==> StandsAt(r.value, log, base, upTo))
  {
    StoreTakesIff(st, log, base, since, at, upTo);
  }

  // ----- the invariant -----

  ghost predicate CutAt(log: seq<Mutation>, base: nat, p: nat, b: Bundle) {
    base <= b.since <= p && WellCut(log, b)
  }

  /** The gateway stands at `p`, which holds the same policies as its checkpoint; whatever it
      took compiles. */
  ghost predicate Standing(s: Sync, p: nat) {
    && Legal(s.log) && 0 < s.base <= s.checkpoint <= p <= |s.log|
    && StandsAt(s.st, s.log, s.base, p)
    && Held(s.log, s.base, s.checkpoint) == Held(s.log, s.base, p)
    && Compiles(s.cidr, s.log[s.base..p])
  }

  ghost predicate TrafficOk(s: Sync, p: nat) {
    && s.checkpoint in s.reported && (forall g | g in s.reported :: s.base <= g <= p)
    && (forall b | b in s.inFlight :: CutAt(s.log, s.base, p, b))
    && (forall h | h in s.handlers ::
          CutAt(s.log, s.base, p, s.handlers[h].bundle) && s.handlers[h].seen <= s.checkpoint)
  }

  ghost predicate Good(s: Sync) {
    Standing(s, s.checkpoint) && TrafficOk(s, s.checkpoint)
  }

  /** The checkpoint has moved past a bundle since its handler read it. */
  predicate Overtaken(s: Sync, hd: Handler) {
    hd.seen < hd.bundle.upTo < s.checkpoint
  }

  /** A handler finishes with a bundle that was overtaken, and the gateway takes it. */
  ghost predicate TakesLate(s: Sync, step: Step)
    requires Enabled(s, step)
  {
    && step.Finish? && Overtaken(s, s.handlers[step.h])
    && Take(s.cidr, s.st, Delta(s.log, s.handlers[step.h].bundle)).Some?
  }

  lemma LongerLog(st: Buckets, log: seq<Mutation>, m: Mutation, base: nat, n: nat)
    requires base <= n <= |log|
    ensures Held(log + [m], base, n) == Held(log, base, n)
    ensures StandsAt(st, log + [m], base, n) <==> StandsAt(st, log, base, n)
    ensures (log + [m])[base..n] == log[base..n]
  {
    var more := log + [m];
    assert more[..n] == log[..n] && more[..base] == log[..base] && more[base..n] == log[base..n];
  }

  lemma MutateKeeps(s: Sync, p: nat, m: Mutation)
    requires Standing(s, p) && TrafficOk(s, p) && Enabled(s, Mutate(m))
    ensures Standing(Do(s, Mutate(m)), p) && TrafficOk(Do(s, Mutate(m)), p)
  {
    LongerLog(s.st, s.log, m, s.base, p);
    LongerLog(s.st, s.log, m, s.base, s.checkpoint);
  }

  lemma CompilesFurther(cidr: Cidr, log: seq<Mutation>, base: nat, since: nat, p: nat, upTo: nat)
    requires base <= since <= p && since <= upTo <= |log| && p <= |log|
    requires Compiles(cidr, log[base..p]) && Compiles(cidr, log[since..upTo])
    ensures Compiles(cidr, log[base..upTo])
  {
    forall i | 0 <= i < |log[base..upTo]| ensures CidrsParse(cidr, log[base..upTo][i].rule) {
      if base + i < p {
        assert log[base..p][i] == log[base + i];
      } else {
        assert log[since..upTo][base + i - since] == log[base + i];
      }
    }
  }

  /** A handler that is done with a bundle that ends at or above the gateway's position. */
  lemma ApplyKeeps(s: Sync, p: nat, hd: Handler)
    requires Standing(s, p) && CutAt(s.log, s.base, p, hd.bundle) && p <= hd.bundle.upTo && hd.seen < hd.bundle.upTo
    ensures var t := Finished(s, hd);
            && (t == s || (Standing(t, hd.bundle.upTo) && t.checkpoint == hd.bundle.upTo
                           && t == s.(st := t.st, checkpoint := t.checkpoint, reported := s.reported + {t.checkpoint})))
  {
    DeliverIff(s.cidr, s.st, s.log, s.base, hd.bundle.since, p, hd.bundle.upTo);
    if Compiles(s.cidr, Delta(s.log, hd.bundle)) {
      CompilesFurther(s.cidr, s.log, s.base, hd.bundle.since, p, hd.bundle.upTo);
    }
  }

  lemma ArriveKeeps(s: Sync, p: nat, h: int, b: Bundle)
    requires Standing(s, p) && TrafficOk(s, p) && Enabled(s, Arrive(h, b))
    ensures Standing(Do(s, Arrive(h, b)), p) && TrafficOk(Do(s, Arrive(h, b)), p)
  {
    assert CutAt(s.log, s.base, p, b);
  }

  lemma SendKeeps(s: Sync, p: nat, g: nat)
    requires Standing(s, p) && TrafficOk(s, p) && Enabled(s, Send(g))
    ensures Standing(Do(s, Send(g)), p) && TrafficOk(Do(s, Send(g)), p)
  {
    assert CutAt(s.log, s.base, p, Bundle(g, |s.log|));
  }

  /** Sending, losing, arriving and reporting leave store and log alone. */
  lemma TrafficKeeps(s: Sync, p: nat, step: Step)
    requires Standing(s, p) && TrafficOk(s, p) && Enabled(s, step) && !step.Mutate? && !step.Finish?
    ensures Standing(Do(s, step), p) && TrafficOk(Do(s, step), p)
  {
    match step {
      case Arrive(h, b) => ArriveKeeps(s, p, h, b);
      case Send(g) => SendKeeps(s, p, g);
      case _ =>
    }
  }

  lemma FinishKeepsGood(s: Sync, h: int)
    requires Good(s) && Enabled(s, Finish(h)) && !TakesLate(s, Finish(h))
    ensures Good(Do(s, Finish(h))) && s.checkpoint <= Do(s, Finish(h)).checkpoint
  {
    var hd := s.handlers[h];
    if hd.seen < hd.bundle.upTo && s.checkpoint <= hd.bundle.upTo {
      ApplyKeeps(s, s.checkpoint, hd);
    }
  }

  lemma StepKeepsGood(s: Sync, step: Step)
    requires Good(s) && Enabled(s, step) && !TakesLate(s, step)
    ensures Good(Do(s, step)) && s.checkpoint <= Do(s, step).checkpoint
  {
    match step {
      case Mutate(m) => MutateKeeps(s, s.checkpoint, m);
      case Finish(h) => FinishKeepsGood(s, h);
      case _ => TrafficKeeps(s, s.checkpoint, step);
    }
  }

  lemma StartIsGood(s: Sync)
    requires Start(s)
    ensures Good(s)
  {
    var f := Fold(s.log[..s.base]);
    SnapshotIsSynced(f);
    assert s.log[s.base..s.base] == [];
    assert Absent(s.log, s.base, s.base) == Disabled(f);
  }

  ghost predicate NothingTakenLate(states: seq<Sync>, steps: seq<Step>)
    requires Run(states, steps)
  {
    forall i | 0 <= i < |steps| :: TimelyAt(states, steps, i)
  }

  ghost predicate TimelyAt(states: seq<Sync>, steps: seq<Step>, i: int)
    requires |states| == |steps| + 1 && 0 <= i < |steps|
  {
    StepAt(states, steps, i) && !TakesLate(states[i], steps[i])
  }

  lemma TimelyStep(states: seq<Sync>, steps: seq<Step>, i: nat)
    requires |states| == |steps| + 1 && i < |steps| && TimelyAt(states, steps, i) && Good(states[i])
    ensures Good(states[i + 1]) && states[i].checkpoint <= states[i + 1].checkpoint
  {
    StepKeepsGood(states[i], steps[i]);
  }

  lemma RunStartsGood(states: seq<Sync>, steps: seq<Step>)
    requires Run(states, steps)
    ensures |states| == |steps| + 1 && Good(states[0])
  {
    StartIsGood(states[0]);
  }

  lemma {:induction false} TimelyKeepsGood(states: seq<Sync>, steps: seq<Step>, i: nat)
    requires |states| == |steps| + 1 && i < |states| && Good(states[0])
    requires forall j | 0 <= j < |steps| :: TimelyAt(states, steps, j)
    ensures Good(states[i])
    ensures i > 0 ==> states[i - 1].checkpoint <= states[i].checkpoint
    decreases i
  {
    if i > 0 {
      TimelyKeepsGood(states, steps, i - 1);
      assert TimelyAt(states, steps, i - 1);
      TimelyStep(states, steps, i - 1);
    }
  }

  lemma GoodAlongRun(states: seq<Sync>, steps: seq<Step>, i: nat)
    requires Run(states, steps) && NothingTakenLate(states, steps) && i < |states|
    ensures Good(states[i])
    ensures i > 0 ==> states[i - 1].checkpoint <= states[i].checkpoint
  {
    RunStartsGood(states, steps);
    TimelyKeepsGood(states, steps, i);
  }

  lemma GoodIsRight(s: Sync)
    requires Good(s)
    ensures Right(s)
  {
  }

  // ----- main results -----

  /** Safety over all runs of lost, delayed and reordered bundles and acknowledgements in which
      no overtaken bundle is taken: the gateway always holds exactly the policies of the log up
      to its checkpoint, but for the absent ones, and the checkpoint never moves back. */
  lemma GatewayIsAlwaysAPrefix(states: seq<Sync>, steps: seq<Step>, i: nat)
    requires Run(states, steps) && NothingTakenLate(states, steps) && i < |states|
    ensures Right(states[i])
    ensures i > 0 ==> states[i - 1].checkpoint <= states[i].checkpoint
  {
    GoodAlongRun(states, steps, i);
    GoodIsRight(states[i]);
  }

  /** A handler starts only when no other one is under way. */
  ghost predicate OneAtATime(states: seq<Sync>, steps: seq<Step>) {
    forall i | 0 <= i < |steps| && i < |states| && steps[i].Arrive? :: states[i].handlers == map[]
  }

  ghost predicate Undisturbed(s: Sync) {
    && (forall h, k | h in s.handlers && k in s.handlers :: h == k)
    && (forall h | h in s.handlers :: s.handlers[h].seen == s.checkpoint)
  }

  lemma {:induction false} UndisturbedAlongRun(states: seq<Sync>, steps: seq<Step>, i: nat)
    requires Run(states, steps) && OneAtATime(states, steps) && i < |states|
    ensures Undisturbed(states[i])
    decreases i
  {
    if i > 0 {
      UndisturbedAlongRun(states, steps, i - 1);
      assert StepAt(states, steps, i - 1);
    }
  }

  /** Handlers that run one at a time never take an overtaken bundle. */
  lemma OneAtATimeIsSafe(states: seq<Sync>, steps: seq<Step>, i: nat)
    requires Run(states, steps) && OneAtATime(states, steps) && i < |states|
    ensures NothingTakenLate(states, steps) && Right(states[i])
  {
    forall j | 0 <= j < |steps| ensures TimelyAt(states, steps, j) {
      assert StepAt(states, steps, j);
      UndisturbedAlongRun(states, steps, j);
    }
    GatewayIsAlwaysAPrefix(states, steps, i);
  }

  /** A delta that is sent, arrives and is handled with nothing in between. */
  ghost predicate Delivers(s: Sync, h: int, t: Sync) {
    && Enabled(s, Send(s.checkpoint))
    && var sent, b := Do(s, Send(s.checkpoint)), Bundle(s.checkpoint, |s.log|);
    && Enabled(sent, Arrive(h, b))
    && var arrived := Do(sent, Arrive(h, b));
    && Enabled(arrived, Finish(h))
    && t == Do(arrived, Finish(h))
  }

  lemma DeliversFinished(s: Sync, h: int)
    requires s.checkpoint in s.reported && s.checkpoint < |s.log| && h !in s.handlers
    ensures Delivers(s, h, Finished(s, Handler(Bundle(s.checkpoint, |s.log|), s.checkpoint)))
  {
    var b := Bundle(s.checkpoint, |s.log|);
    assert s.inFlight + multiset{b} - multiset{b} == s.inFlight;
    assert s.handlers[h := Handler(b, s.checkpoint)] - {h} == s.handlers;
  }

  lemma DeltaConvergesIff(s: Sync)
    requires Good(s) && s.checkpoint < |s.log|
    ensures var t := Finished(s, Handler(Bundle(s.checkpoint, |s.log|), s.checkpoint));
            if Compiles(s.cidr, s.log[s.checkpoint..])
            then t.checkpoint == |s.log| && |s.log| in t.reported && t.st.policies == Held(s.log, s.base, |s.log|)
            else t == s
  {
    assert s.log[s.checkpoint..s.checkpoint] == [] && s.log[s.checkpoint..|s.log|] == s.log[s.checkpoint..];
    assert Replayable(Fold(s.log[..s.checkpoint]), []);
    DeliverIff(s.cidr, s.st, s.log, s.base, s.checkpoint, s.checkpoint, |s.log|);
  }

  /** Recovery, exactly: the control plane knows the checkpoint, so it can send the delta from
      there; if that arrives and its handler is not overlapped, it brings the gateway to the end of
      the log, and that is reported, iff every mutation above the checkpoint compiles; otherwise
      all is as before. */
  lemma ReportedCheckpointConvergesIff(states: seq<Sync>, steps: seq<Step>, i: nat, h: int) returns (t: Sync)
    requires Run(states, steps) && NothingTakenLate(states, steps) && i < |states|
    requires states[i].checkpoint < |states[i].log| && h !in states[i].handlers
    ensures Delivers(states[i], h, t)
    ensures var s := states[i];
            if Compiles(s.cidr, s.log[s.checkpoint..])
            then t.checkpoint == |s.log| && |s.log| in t.reported
                 && s.base <= |s.log| && t.st.policies == Held(s.log, s.base, |s.log|)
            else t == s
  {
    var s := states[i];
    GoodAlongRun(states, steps, i);
    t := Finished(s, Handler(Bundle(s.checkpoint, |s.log|), s.checkpoint));
    DeliversFinished(s, h);
    DeltaConvergesIff(s);
  }

  // ----- a mutation that does not compile -----

  /** Whatever the gateway took or reported, it got there over mutations that compile. */
  ghost predicate Passable(cidr: Cidr, log: seq<Mutation>, base: nat, v: nat) {
    base <= v <= |log| && Compiles(cidr, log[base..v])
  }

  ghost predicate AllPassable(s: Sync) {
    && Passable(s.cidr, s.log, s.base, s.checkpoint)
    && (forall g | g in s.reported :: Passable(s.cidr, s.log, s.base, g))
    && (forall b | b in s.inFlight :: Passable(s.cidr, s.log, s.base, b.since))
    && (forall h | h in s.handlers :: Passable(s.cidr, s.log, s.base, s.handlers[h].bundle.since)
                                      && Passable(s.cidr, s.log, s.base, s.handlers[h].seen))
  }

  lemma PassableInLongerLog(cidr: Cidr, log: seq<Mutation>, m: Mutation, base: nat)
    ensures forall v: nat | Passable(cidr, log, base, v) :: Passable(cidr, log + [m], base, v)
  {
    forall v: nat | Passable(cidr, log, base, v) ensures Passable(cidr, log + [m], base, v) {
      assert (log + [m])[base..v] == log[base..v];
    }
  }

  lemma FinishKeepsPassable(s: Sync, h: int)
    requires AllPassable(s) && Enabled(s, Finish(h))
    ensures AllPassable(Do(s, Finish(h)))
  {
    var hd := s.handlers[h];
    if Compiles(s.cidr, Delta(s.log, hd.bundle)) {
      CompilesFurther(s.cidr, s.log, s.base, hd.bundle.since, hd.bundle.since, hd.bundle.upTo);
    }
  }

  lemma StepKeepsPassable(s: Sync, step: Step)
    requires AllPassable(s) && Enabled(s, step)
    ensures AllPassable(Do(s, step))
  {
    match step {
      case Mutate(m) => PassableInLongerLog(s.cidr, s.log, m, s.base);
      case Finish(h) => FinishKeepsPassable(s, h);
      case _ =>
    }
  }

  lemma {:induction false} PassableAlongRun(states: seq<Sync>, steps: seq<Step>, i: nat)
    requires Run(states, steps) && i < |states|
    ensures AllPassable(states[i])
    decreases i
  {
    if i > 0 {
      PassableAlongRun(states, steps, i - 1);
      assert StepAt(states, steps, i - 1);
      StepKeepsPassable(states[i - 1], steps[i - 1]);
    } else {
      assert states[0].log[states[0].base..states[0].base] == [];
    }
  }

  lemma {:induction false} LogGrows(states: seq<Sync>, steps: seq<Step>, i: nat, j: nat)
    requires Run(states, steps) && i <= j < |states|
    ensures states[i].log <= states[j].log && states[i].base == states[j].base && states[i].cidr == states[j].cidr
    decreases j - i
  {
    if i < j {
      LogGrows(states, steps, i, j - 1);
      assert StepAt(states, steps, j - 1);
    }
  }

  lemma PassableBelow(cidr: Cidr, log: seq<Mutation>, base: nat, v: nat, p: nat)
    requires Passable(cidr, log, base, v) && base <= p
    ensures p < v ==> CidrsParse(cidr, log[p].rule)
  {
    if p < v {
      assert log[base..v][p - base] == log[p];
    }
  }

  /** A mutation that does not compile blocks the gateway for good: in every run, overlapping
      handlers included, the checkpoint never passes it and nothing above it is ever reported,
      whatever is written later - a correction or a deletion of the policy included. */
  lemma UncompilableBlocks(states: seq<Sync>, steps: seq<Step>, i: nat, j: nat, p: nat)
    requires Run(states, steps) && i <= j < |states| && states[i].base <= p < |states[i].log|
    requires !CidrsParse(states[i].cidr, states[i].log[p].rule)
    ensures states[j].checkpoint <= p && forall g | g in states[j].reported :: g <= p
  {
    var t := states[j];
    LogGrows(states, steps, i, j);
    PassableAlongRun(states, steps, j);
    forall v: nat | Passable(t.cidr, t.log, t.base, v) ensures v <= p {
      PassableBelow(t.cidr, t.log, t.base, v, p);
    }
  }

  // ----- snapshots -----

  /** A first snapshot is taken iff every live enabled policy compiles, and then fills the store
      with them. */
  lemma FirstSnapshotTakenIff(cidr: Cidr, f: Buckets, ms: seq<Mutation>)
    requires Healthy(f) && Lists(ms, SnapshotOf(f))
    ensures Take(cidr, EMPTY, ms) ==
            if SnapshotCompiles(cidr, f) then Some(Buckets(SnapshotOf(f), map[])) else None
  {
    SnapshotSyncsIff(f, ms);
    ListsCompile(cidr, f, ms);
  }

  lemma ListsCompile(cidr: Cidr, f: Buckets, ms: seq<Mutation>)
    requires Lists(ms, SnapshotOf(f))
    ensures Compiles(cidr, ms) <==> SnapshotCompiles(cidr, f)
  {
    if Compiles(cidr, ms) {
      forall k | k in SnapshotOf(f) ensures CidrsParse(cidr, f.policies[k]) {
        assert k in Keys(ms);
        var i :| 0 <= i < |ms| && Key(ms[i].rule) == k;
      }
    }
  }

  /** A snapshot on a gateway that stands at `f` already, taken after `b` more mutations: it is
      taken iff every policy in it compiles and changed since. */
  lemma FurtherSnapshotTakenIff(cidr: Cidr, st: Buckets, f: Buckets, absent: set<PolicyKey>,
                                b: seq<Mutation>, ms: seq<Mutation>)
    requires Healthy(f) && LegalFrom(f, b) && Synced(st, f, {}, absent) && Lists(ms, SnapshotOf(FoldFrom(f, b)))
    ensures var snap := SnapshotOf(FoldFrom(f, b));
            Take(cidr, st, ms).Some? <==>
            && SnapshotCompiles(cidr, FoldFrom(f, b))
            && forall k | k in snap && k in st.policies :: st.policies[k].version < snap[k].version
  {
    SnapshotOnSyncedStore(st, f, absent, b, ms);
    ListsCompile(cidr, FoldFrom(f, b), ms);
  }

  lemma {:induction false} Untouched(f: Buckets, d: seq<Mutation>, k: PolicyKey)
    requires k !in Keys(d)
    ensures SameAt(FoldFrom(f, d), f, k)
    decreases |d|
  {
    if d != [] {
      var n := |d| - 1;
      assert d == d[..n] + [d[n]];
      KeysStep(d[..n], d[n]);
      Untouched(f, d[..n], k);
    }
  }

  /** What the gateway lacks.  A live policy is missing iff it was disabled when the first
      snapshot was taken and no mutation has touched it since; so the gateway holds every live
      policy iff every policy disabled then has been touched. */
  lemma HoldsEverythingIff(log: seq<Mutation>, base: nat, n: nat)
    requires Legal(log) && base <= n <= |log|
    ensures var snapped := Fold(log[..base]).policies;
            && (forall k | k in Fold(log[..n]).policies ::
                  k !in Held(log, base, n) <==> k in snapped && !snapped[k].enabled && k !in Keys(log[base..n]))
            && (Held(log, base, n) == Fold(log[..n]).policies <==>
                  forall k | k in snapped && !snapped[k].enabled :: k in Keys(log[base..n]))
  {
    Parts(log, base, n);
    if k :| k in Disabled(Fold(log[..base])) && k !in Keys(log[base..n]) {
      Untouched(Fold(log[..base]), log[base..n], k);
      assert k in Fold(log[..n]).policies && k !in Held(log, base, n);
    } else {
      assert Absent(log, base, n) == {};
    }
  }
}
