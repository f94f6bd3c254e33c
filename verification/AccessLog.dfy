/**
 The access-log batcher of the gateway (internal/gateway/logging/access_logger.go) as a step
 machine: a bounded queue that never blocks its writers, streaming sessions that start and
 stop at any time, and one flusher goroutine per session.  A flusher that was told to stop
 flushes once more and ends; it may still be ending while the next one runs.
 */
module AccessLog {
  import opened Wrappers

  const QUEUE_SIZE := 1024
  const BATCH_SIZE := 50

  /** A log entry with its identity. */
  datatype Entry = Entry(id: int)

  /** `accepted` is everything the sender took from this flusher, in order; `lost` is what
      was left when the final flush failed. */
  datatype Flusher = Flusher(batch: seq<Entry>, stopping: bool, ended: bool, accepted: seq<Entry>, lost: seq<Entry>)

  datatype State = State(
    closed: bool,
    session: Option<nat>,
    queue: seq<Entry>,
    flushers: seq<Flusher>,
    passing: seq<Entry>,                // entries whose writer passed the closed test
    enqueued: seq<Entry>,               // history: everything ever put in the queue
    taken: seq<(nat, Entry)>,           // history: who took which entry from the queue
    dropped: seq<Entry>,
    offered: multiset<Entry>)           // history: entries offered while open

  datatype Step =
    | Offer(e: Entry) | Put(k: nat) | Close
    | Start(sender: bool) | Stop
    | Take(f: nat, outcome: Outcome) | Tick(f: nat, outcome: Outcome) | Finish(f: nat, outcome: Outcome)

  /** What a flush meets: no sender, a send error, or success. */
  datatype Outcome = NoSender | SendError | Sent

  predicate Running(s: State, f: nat) {
    f < |s.flushers| && !s.flushers[f].ended
  }

  predicate Enabled(s: State, step: Step) {
    match step
    case Offer(_) => true
    case Put(k) => k < |s.passing|
    case Close => true
    case Start(_) => true
    case Stop => true
    case Take(f, _) => Running(s, f) && s.queue != []
    case Tick(f, _) => Running(s, f)
    case Finish(f, _) => Running(s, f) && s.flushers[f].stopping
  }

  /** flush(): an empty batch is not sent, a failed send keeps the batch for a retry. */
  function Flush(fl: Flusher, outcome: Outcome): Flusher {
    if fl.batch == [] || !outcome.Sent? then fl
    else fl.(batch := [], accepted := fl.accepted + fl.batch)
  }

  function Do(s: State, step: Step): State
    requires Enabled(s, step)
  {
    match step
    case Offer(e) =>
      if s.closed then s else s.(passing := s.passing + [e], offered := s.offered + multiset{e})
    case Put(k) =>
      var e, rest := s.passing[k], s.passing[..k] + s.passing[k + 1..];
      if |s.queue| < QUEUE_SIZE
      then s.(queue := s.queue + [e], enqueued := s.enqueued + [e], passing := rest)
      else s.(dropped := s.dropped + [e], passing := rest)
    case Close => s.(closed := true)
    case Start(sender) =>
      if s.session.Some? || !sender then s
      else s.(session := Some(|s.flushers|), flushers := s.flushers + [Flusher([], false, false, [], [])])
    case Stop =>
      if s.session.None? || s.session.value >= |s.flushers| then s.(session := None)
      else
        var f := s.session.value;
        s.(session := None, flushers := s.flushers[f := s.flushers[f].(stopping := true)])
    case Take(f, outcome) =>
      var fl := s.flushers[f].(batch := s.flushers[f].batch + [s.queue[0]]);
      s.(queue := s.queue[1..], taken := s.taken + [(f, s.queue[0])],
         flushers := s.flushers[f := if |fl.batch| >= BATCH_SIZE then Flush(fl, outcome) else fl])
    case Tick(f, outcome) => s.(flushers := s.flushers[f := Flush(s.flushers[f], outcome)])
    case Finish(f, outcome) =>
      var fl := Flush(s.flushers[f], outcome);
      s.(flushers := s.flushers[f := fl.(batch := [], ended := true, lost := fl.batch)])
  }

  ghost predicate Run(states: seq<State>, steps: seq<Step>) {
    && |states| == |steps| + 1
    && states[0] == State(false, None, [], [], [], [], [], [], multiset{})
    && forall i | 0 <= i < |steps| :: Enabled(states[i], steps[i]) && states[i + 1] == Do(states[i], steps[i])
  }

  // ----- where the entries are -----

  function Entries(taken: seq<(nat, Entry)>): seq<Entry> {
    seq(|taken|, i requires 0 <= i < |taken| => taken[i].1)
  }

  /** What one flusher took, in queue order. */
  function TakenBy(f: nat, taken: seq<(nat, Entry)>): seq<Entry> {
    if taken == [] then []
    else
      var n := |taken| - 1;
      TakenBy(f, taken[..n]) + (if taken[n].0 == f then [taken[n].1] else [])
  }

  /** A flusher's entries are, in queue order, those the sender accepted, then those in the
      batch (while it runs) or lost (at its end). */
  ghost predicate FlusherOk(fl: Flusher, mine: seq<Entry>) {
    if fl.ended then fl.batch == [] && mine == fl.accepted + fl.lost
    else fl.lost == [] && mine == fl.accepted + fl.batch
  }

  ghost predicate QueueOk(s: State) {
    && |s.queue| <= QUEUE_SIZE
    && s.enqueued == Entries(s.taken) + s.queue
    && s.offered == multiset(s.enqueued) + multiset(s.dropped) + multiset(s.passing)
  }

  ghost predicate FlushersOk(s: State) {
    && (forall i | 0 <= i < |s.taken| :: s.taken[i].0 < |s.flushers|)
    && (forall f | 0 <= f < |s.flushers| :: FlusherOk(s.flushers[f], TakenBy(f, s.taken)))
    && (s.session.Some? ==> s.session.value < |s.flushers|)
  }

  ghost predicate Inv(s: State) {
    QueueOk(s) && FlushersOk(s)
  }

  lemma TakenByStep(f: nat, taken: seq<(nat, Entry)>, g: nat, e: Entry)
    ensures TakenBy(f, taken + [(g, e)]) == TakenBy(f, taken) + if g == f then [e] else []
  {
    assert (taken + [(g, e)])[..|taken|] == taken;
  }

  lemma {:induction false} NothingTaken(f: nat, taken: seq<(nat, Entry)>)
    requires forall i | 0 <= i < |taken| :: taken[i].0 < f
    ensures TakenBy(f, taken) == []
    decreases |taken|
  {
    if taken != [] {
      NothingTaken(f, taken[..|taken| - 1]);
    }
  }

  lemma WithoutOne(s: seq<Entry>, k: nat)
    requires k < |s|
    ensures multiset(s) == multiset(s[..k] + s[k + 1..]) + multiset{s[k]}
  {
    assert s == s[..k] + [s[k]] + s[k + 1..];
  }

  lemma PutBalances(enqueued: seq<Entry>, dropped: seq<Entry>, passing: seq<Entry>, k: nat)
    requires k < |passing|
    ensures var rest := passing[..k] + passing[k + 1..];
            var all := multiset(enqueued) + multiset(dropped) + multiset(passing);
            && all == multiset(enqueued + [passing[k]]) + multiset(dropped) + multiset(rest)
            && all == multiset(enqueued) + multiset(dropped + [passing[k]]) + multiset(rest)
  {
    WithoutOne(passing, k);
  }

  lemma PutKeepsQueue(s: State, k: nat)
    requires QueueOk(s) && Enabled(s, Put(k))
    ensures QueueOk(Do(s, Put(k)))
  {
    PutBalances(s.enqueued, s.dropped, s.passing, k);
    if |s.queue| < QUEUE_SIZE {
      var taken := Entries(s.taken);
      assert taken + s.queue + [s.passing[k]] == taken + (s.queue + [s.passing[k]]);
    }
  }

  lemma EntriesStep(taken: seq<(nat, Entry)>, f: nat, e: Entry)
    ensures Entries(taken + [(f, e)]) == Entries(taken) + [e]
  {
  }

  lemma TakeFromQueue(enqueued: seq<Entry>, taken: seq<(nat, Entry)>, queue: seq<Entry>, f: nat)
    requires enqueued == Entries(taken) + queue && queue != []
    ensures enqueued == Entries(taken + [(f, queue[0])]) + queue[1..]
  {
    EntriesStep(taken, f, queue[0]);
    assert queue == [queue[0]] + queue[1..];
  }

  lemma TakeKeepsQueue(s: State, f: nat, outcome: Outcome)
    requires QueueOk(s) && Enabled(s, Take(f, outcome))
    ensures QueueOk(Do(s, Take(f, outcome)))
  {
    TakeFromQueue(s.enqueued, s.taken, s.queue, f);
  }

  lemma StepKeepsQueue(s: State, step: Step)
    requires QueueOk(s) && Enabled(s, step)
    ensures QueueOk(Do(s, step))
  {
    match step {
      case Put(k) => PutKeepsQueue(s, k);
      case Take(f, outcome) => TakeKeepsQueue(s, f, outcome);
      case _ =>
    }
  }

  lemma FlushKeepsOk(fl: Flusher, mine: seq<Entry>, outcome: Outcome)
    requires FlusherOk(fl, mine) && !fl.ended
    ensures FlusherOk(Flush(fl, outcome), mine) && !Flush(fl, outcome).ended
    ensures var fl' := Flush(fl, outcome);
            FlusherOk(fl'.(batch := [], ended := true, lost := fl'.batch), mine)
  {
  }

  /** Taking an entry appends it to the batch and, when the batch is full, flushes. */
  lemma TakeKeepsFlushers(s: State, f: nat, outcome: Outcome)
    requires FlushersOk(s) && Enabled(s, Take(f, outcome))
    ensures FlushersOk(Do(s, Take(f, outcome)))
  {
    var t := Do(s, Take(f, outcome));
    var e := s.queue[0];
    forall g: nat | g < |t.flushers| ensures FlusherOk(t.flushers[g], TakenBy(g, t.taken)) {
      TakenByStep(g, s.taken, f, e);
      assert FlusherOk(s.flushers[g], TakenBy(g, s.taken));
      if g == f {
        var fl := s.flushers[f].(batch := s.flushers[f].batch + [e]);
        assert FlusherOk(fl, TakenBy(f, t.taken));
        FlushKeepsOk(fl, TakenBy(f, t.taken), outcome);
      }
    }
  }

  /** A session that starts has taken nothing. */
  lemma StartKeepsFlushers(s: State, sender: bool)
    requires FlushersOk(s)
    ensures FlushersOk(Do(s, Start(sender)))
  {
    NothingTaken(|s.flushers|, s.taken);
  }

  /** One flusher changes, to one that accounts for the same entries. */
  lemma ReplaceKeepsFlushers(s: State, f: nat, fl: Flusher)
    requires FlushersOk(s) && f < |s.flushers| && FlusherOk(fl, TakenBy(f, s.taken))
    ensures FlushersOk(s.(flushers := s.flushers[f := fl]))
  {
  }

  lemma StopKeepsFlushers(s: State)
    requires FlushersOk(s)
    ensures FlushersOk(Do(s, Stop))
  {
    if s.session.Some? {
      var f := s.session.value;
      var fl := s.flushers[f].(stopping := true);
      assert FlusherOk(s.flushers[f], TakenBy(f, s.taken));
      ReplaceKeepsFlushers(s.(session := None), f, fl);
    }
  }

  lemma FlushKeepsFlushers(s: State, f: nat, outcome: Outcome)
    requires FlushersOk(s) && Running(s, f)
    ensures FlushersOk(Do(s, Tick(f, outcome)))
    ensures s.flushers[f].stopping ==> FlushersOk(Do(s, Finish(f, outcome)))
  {
    assert FlusherOk(s.flushers[f], TakenBy(f, s.taken));
    FlushKeepsOk(s.flushers[f], TakenBy(f, s.taken), outcome);
    var fl := Flush(s.flushers[f], outcome);
    ReplaceKeepsFlushers(s, f, fl);
    ReplaceKeepsFlushers(s, f, fl.(batch := [], ended := true, lost := fl.batch));
  }

  lemma StepKeepsFlushers(s: State, step: Step)
    requires FlushersOk(s) && Enabled(s, step)
    ensures FlushersOk(Do(s, step))
  {
    match step {
      case Take(f, outcome) => TakeKeepsFlushers(s, f, outcome);
      case Start(sender) => StartKeepsFlushers(s, sender);
      case Stop => StopKeepsFlushers(s);
      case Tick(f, outcome) => FlushKeepsFlushers(s, f, outcome);
      case Finish(f, outcome) => FlushKeepsFlushers(s, f, outcome);
      case _ =>
    }
  }

  lemma {:induction false} InvAlongRun(states: seq<State>, steps: seq<Step>, i: nat)
    requires Run(states, steps) && i < |states|
    ensures Inv(states[i])
  {
    if i > 0 {
      InvAlongRun(states, steps, i - 1);
      StepKeepsQueue(states[i - 1], steps[i - 1]);
      StepKeepsFlushers(states[i - 1], steps[i - 1]);
    }
  }

  /** What the flushers hold, delivered or lost, taken together. */
  function HeldBy(fl: Flusher): multiset<Entry> {
    multiset(fl.accepted) + multiset(fl.batch) + multiset(fl.lost)
  }

  function Sum(parts: seq<multiset<Entry>>): multiset<Entry> {
    if parts == [] then multiset{} else Sum(parts[..|parts| - 1]) + parts[|parts| - 1]
  }

  lemma {:induction false} SumBumped(parts: seq<multiset<Entry>>, g: nat, e: Entry)
    requires g < |parts|
    ensures Sum(parts[g := parts[g] + multiset{e}]) == Sum(parts) + multiset{e}
    decreases |parts|
  {
    var n := |parts| - 1;
    var bumped := parts[g := parts[g] + multiset{e}];
    if g < n {
      SumBumped(parts[..n], g, e);
      assert bumped[..n] == parts[..n][g := parts[..n][g] + multiset{e}];
    } else {
      assert bumped[..n] == parts[..n];
    }
  }

  lemma {:induction false} SumOfNothing(parts: seq<multiset<Entry>>)
    requires forall f | 0 <= f < |parts| :: parts[f] == multiset{}
    ensures Sum(parts) == multiset{}
    decreases |parts|
  {
    if parts != [] {
      SumOfNothing(parts[..|parts| - 1]);
    }
  }

  /** What each flusher holds. */
  function Holdings(fls: seq<Flusher>): seq<multiset<Entry>> {
    seq(|fls|, f requires 0 <= f < |fls| => HeldBy(fls[f]))
  }

  /** What each of the first n flushers took. */
  function Shares(taken: seq<(nat, Entry)>, n: nat): seq<multiset<Entry>> {
    seq(n, f requires 0 <= f < n => multiset(TakenBy(f, taken)))
  }

  lemma SharesStep(taken: seq<(nat, Entry)>, n: nat, g: nat, e: Entry)
    requires g < n
    ensures var parts := Shares(taken, n); Shares(taken + [(g, e)], n) == parts[g := parts[g] + multiset{e}]
  {
    var parts, more := Shares(taken, n), Shares(taken + [(g, e)], n);
    forall f: nat | f < n ensures more[f] == parts[g := parts[g] + multiset{e}][f] {
      TakenByStep(f, taken, g, e);
    }
  }

  /** The shares make up everything that was taken. */
  ghost predicate Partitioned(taken: seq<(nat, Entry)>, n: nat) {
    multiset(Entries(taken)) == Sum(Shares(taken, n))
  }

  lemma NothingPartitioned(n: nat)
    ensures Partitioned([], n)
  {
    SumOfNothing(Shares([], n));
  }

  lemma PartitionStep(taken: seq<(nat, Entry)>, n: nat, last: (nat, Entry))
    requires last.0 < n && Partitioned(taken, n)
    ensures Partitioned(taken + [last], n)
  {
    EntriesStep(taken, last.0, last.1);
    SharesStep(taken, n, last.0, last.1);
    SumBumped(Shares(taken, n), last.0, last.1);
  }

  lemma {:induction false} TakenIsPartitioned(taken: seq<(nat, Entry)>, n: nat)
    requires forall i | 0 <= i < |taken| :: taken[i].0 < n
    ensures Partitioned(taken, n)
    decreases |taken|
  {
    if taken == [] {
      NothingPartitioned(n);
    } else {
      var front, last := taken[..|taken| - 1], taken[|taken| - 1];
      TakenIsPartitioned(front, n);
      PartitionStep(front, n, last);
      assert taken == front + [last];
    }
  }

  lemma HeldByOne(fl: Flusher, mine: seq<Entry>)
    requires FlusherOk(fl, mine)
    ensures HeldBy(fl) == multiset(mine)
  {
  }

  /** Conservation, in every interleaving of writers, Start, Stop, Close and any number of
      flushers: the entries offered to the open logger are exactly those in a writer's hand,
      in the queue (never more than 1024), dropped, or with one flusher - accepted by the
      sender, in its batch, or lost because its final flush failed.  None is in two places
      and none is accepted twice. */
  lemma EveryEntryIsSomewhere(states: seq<State>, steps: seq<Step>, i: nat)
    requires Run(states, steps) && i < |states|
    ensures var s := states[i];
            && s.offered ==
               multiset(s.passing) + multiset(s.queue) + multiset(s.dropped) + Sum(Holdings(s.flushers))
            && |s.queue| <= QUEUE_SIZE
  {
    InvAlongRun(states, steps, i);
    var s := states[i];
    forall f: nat | f < |s.flushers| ensures HeldBy(s.flushers[f]) == multiset(TakenBy(f, s.taken)) {
      HeldByOne(s.flushers[f], TakenBy(f, s.taken));
    }
    assert Holdings(s.flushers) == Shares(s.taken, |s.flushers|);
    TakenIsPartitioned(s.taken, |s.flushers|);
  }

  lemma {:induction false} SoleTaker(taken: seq<(nat, Entry)>, f: nat)
    requires forall i | 0 <= i < |taken| :: taken[i].0 == f
    ensures TakenBy(f, taken) == Entries(taken)
    decreases |taken|
  {
    if taken != [] {
      var k := |taken| - 1;
      SoleTaker(taken[..k], f);
      assert Entries(taken) == Entries(taken[..k]) + [taken[k].1];
    }
  }

  /** Order: each flusher hands its entries to the sender in the order it took them, and
      with a single flusher everything is sent in the order it entered the queue. */
  lemma SentInQueueOrder(states: seq<State>, steps: seq<Step>, i: nat, f: nat)
    requires Run(states, steps) && i < |states| && f < |states[i].flushers|
    ensures var s := states[i];
            && s.flushers[f].accepted <= TakenBy(f, s.taken)
            && (|s.flushers| == 1 ==>
                  s.enqueued == s.flushers[f].accepted + s.flushers[f].batch + s.flushers[f].lost + s.queue)
  {
    InvAlongRun(states, steps, i);
    var s := states[i];
    assert FlusherOk(s.flushers[f], TakenBy(f, s.taken));
    if |s.flushers| == 1 {
      SoleTaker(s.taken, f);
    }
  }

  /** Entries are lost only by a flusher that was told to stop and has ended: no batch is
      given up while its session lasts. */
  lemma LostOnlyAtStop(states: seq<State>, steps: seq<Step>, i: nat, f: nat)
    requires Run(states, steps) && i < |states| && f < |states[i].flushers|
    ensures states[i].flushers[f].lost != [] ==> states[i].flushers[f].ended && states[i].flushers[f].stopping
    decreases i
  {
    if i > 0 {
      var s, t := states[i - 1], states[i];
      assert Enabled(s, steps[i - 1]) && t == Do(s, steps[i - 1]);
      if f < |s.flushers| {
        LostOnlyAtStop(states, steps, i - 1, f);
      }
    }
  }

  // ----- what the outcome of a flush decides -----

  predicate ActsOn(step: Step, f: nat) {
    (step.Take? || step.Tick? || step.Finish?) && step.f == f
  }

  /** What flusher f has in its hands when it acts. */
  function InHand(s: State, step: Step, f: nat): seq<Entry>
    requires f < |s.flushers|
    requires step.Take? ==> s.queue != []
  {
    s.flushers[f].batch + if step.Take? then [s.queue[0]] else []
  }

  /** The flusher talks to the sender: at a tick, at its end, and once it has taken 50 entries. */
  predicate Sends(s: State, step: Step, f: nat)
    requires f < |s.flushers|
    requires step.Take? ==> s.queue != []
  {
    ActsOn(step, f) && (step.Take? ==> |InHand(s, step, f)| >= 50)
  }

  lemma Stepped(states: seq<State>, steps: seq<Step>, i: nat)
    requires Run(states, steps) && i < |steps|
    ensures Enabled(states[i], steps[i]) && states[i + 1] == Do(states[i], steps[i])
  {
  }

  /** In every run: the sender accepts entries from a flusher only when that flusher sends and
      the outcome is Sent, and then exactly what it has in its hands; otherwise it keeps all of
      it for a retry, or loses exactly that if it ends. */
  lemma OutcomeDecides(states: seq<State>, steps: seq<Step>, i: nat, f: nat)
    requires Run(states, steps) && i < |steps| && f < |states[i].flushers|
    ensures f < |states[i + 1].flushers| && (steps[i].Take? ==> states[i].queue != [])
    ensures Decided(states[i], steps[i], f, states[i + 1].flushers[f])
  {
    Stepped(states, steps, i);
    if ActsOn(steps[i], f) {
      ActorDecided(states[i], steps[i], f);
    } else {
      OthersLeft(states[i], steps[i], f);
    }
  }

  lemma ActorDecided(s: State, step: Step, f: nat)
    requires f < |s.flushers| && Enabled(s, step) && ActsOn(step, f)
    ensures f < |Do(s, step).flushers| && Decided(s, step, f, Do(s, step).flushers[f])
  {
  }

  lemma OthersLeft(s: State, step: Step, f: nat)
    requires f < |s.flushers| && Enabled(s, step) && !ActsOn(step, f)
    ensures f < |Do(s, step).flushers|
    ensures var fl, fl' := s.flushers[f], Do(s, step).flushers[f];
            fl'.accepted == fl.accepted && fl'.batch == fl.batch && fl'.lost == fl.lost && fl'.ended == fl.ended
  {
  }

  ghost predicate Decided(s: State, step: Step, f: nat, fl': Flusher)
    requires f < |s.flushers|
    requires step.Take? ==> s.queue != []
  {
    var fl := s.flushers[f];
    var sent := Sends(s, step, f) && step.outcome == Sent;
    var kept := if !ActsOn(step, f) then fl.batch else if sent then [] else InHand(s, step, f);
    && fl'.accepted == fl.accepted + (if sent then InHand(s, step, f) else [])
    && (if step.Finish? && step.f == f
        then fl'.batch == [] && fl'.lost == kept && fl'.ended
        else fl'.batch == kept && fl'.lost == fl.lost && fl'.ended == fl.ended)
  }

  /** A writer that passed the closed test drops its entry iff 1024 are queued, and appends it to
      the queue otherwise; nothing else drops an entry or adds to the queue. */
  lemma DropsIffFull(states: seq<State>, steps: seq<Step>, i: nat)
    requires Run(states, steps) && i < |steps|
    ensures var s, t, step := states[i], states[i + 1], steps[i];
            if step.Put? then
              && step.k < |s.passing|
              && (if |s.queue| >= 1024
                  then t.dropped == s.dropped + [s.passing[step.k]] && t.queue == s.queue
                  else t.dropped == s.dropped && t.queue == s.queue + [s.passing[step.k]])
            else t.dropped == s.dropped && (t.queue == s.queue || (step.Take? && t.queue == s.queue[1..]))
  {
    Stepped(states, steps, i);
  }

  // ----- sessions -----

  ghost predicate SessionsOk(s: State) {
    && (s.session.Some? ==> s.session.value < |s.flushers|)
    && forall f: nat | f < |s.flushers| :: !s.flushers[f].stopping <==> s.session == Some(f)
  }

  /** At every moment at most one flusher has not been told to stop: that of the present session. */
  lemma {:induction false} OnlyTheSessionGoesOn(states: seq<State>, steps: seq<Step>, i: nat)
    requires Run(states, steps) && i < |states|
    ensures SessionsOk(states[i])
  {
    if i > 0 {
      OnlyTheSessionGoesOn(states, steps, i - 1);
      Stepped(states, steps, i - 1);
    }
  }

  predicate SendWorks(step: Step) {
    step.Take? || step.Tick? || step.Finish? ==> step.outcome == Sent
  }

  predicate EverySendWorks(steps: seq<Step>) {
    forall i | 0 <= i < |steps| :: SendWorks(steps[i])
  }

  predicate NotPiled(fl: Flusher) {
    |fl.batch| < 50 && fl.lost == []
  }

  lemma StaysUnpiled(s: State, step: Step, f: nat, fl': Flusher)
    requires f < |s.flushers| && (step.Take? ==> s.queue != []) && SendWorks(step)
    requires NotPiled(s.flushers[f]) && Decided(s, step, f, fl')
    ensures NotPiled(fl')
  {
  }

  lemma NewIsEmpty(s: State, step: Step, f: nat)
    requires Enabled(s, step) && |s.flushers| <= f < |Do(s, step).flushers|
    ensures NotPiled(Do(s, step).flushers[f])
  {
  }

  /** As long as every send goes through, no flusher ever holds 50 entries or loses one. */
  lemma {:induction false} NothingPilesUp(states: seq<State>, steps: seq<Step>, i: nat, f: nat)
    requires Run(states, steps) && EverySendWorks(steps) && i < |states| && f < |states[i].flushers|
    ensures NotPiled(states[i].flushers[f])
  {
    if i > 0 {
      var s := states[i - 1];
      if f < |s.flushers| {
        NothingPilesUp(states, steps, i - 1, f);
        OutcomeDecides(states, steps, i - 1, f);
        StaysUnpiled(s, steps[i - 1], f, states[i].flushers[f]);
      } else {
        Stepped(states, steps, i - 1);
        NewIsEmpty(s, steps[i - 1], f);
      }
    }
  }

  /** A closed logger takes no entry in, and an open one every entry. */
  lemma OpenTakesEveryEntry(states: seq<State>, steps: seq<Step>, i: nat)
    requires Run(states, steps) && i < |steps|
    ensures var s, t, step := states[i], states[i + 1], steps[i];
            && t.offered == s.offered + (if step.Offer? && !s.closed then multiset{step.e} else multiset{})
            && (t.closed <==> s.closed || step.Close?)
  {
    Stepped(states, steps, i);
  }
}
