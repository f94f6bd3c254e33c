/**
 Delivery of the event log to one gateway as a step machine: events are created, a round
 reads the acknowledged cursor, then everything after it, compacts and sends it one by one, it
 may stop anywhere (send error, timeout, reconnect), and the gateway acknowledges any
 sequence it was sent.  Creation and acknowledgement interleave with every step of a round.
 */
module Delivery {
  import opened Events

  /** A round reads the cursor, then the log, then sends. */
  datatype Round = Idle | AtCursor(from: int) | Sending(from: int, read: nat, k: nat)

  datatype State = State(log: seq<Event>, acked: int, sent: seq<Event>, round: Round)

  /** The log as the current round sees it. */
  function Seen(s: State): seq<Event> {
    if s.round.Sending? && s.round.read <= |s.log| then s.log[..s.round.read] else s.log
  }

  function Todo(s: State): seq<Event>
    requires s.round.Sending?
  {
    Compact(After(Seen(s), s.round.from))
  }

  ghost predicate Init(s: State) {
    s == State([], 0, [], Idle)
  }

  ghost predicate Create(s: State, t: State, job: Job) {
    t == s.(log := s.log + [Event(|s.log| + 1, DeliveryModeForCommand(job.command), job)])
  }

  ghost predicate ReadCursor(s: State, t: State) {
    s.round.Idle? && t == s.(round := AtCursor(s.acked))
  }

  ghost predicate ReadLog(s: State, t: State) {
    s.round.AtCursor? && t == s.(round := Sending(s.round.from, |s.log|, 0))
  }

  ghost predicate SendOne(s: State, t: State) {
    && s.round.Sending?
    && s.round.k < |Todo(s)|
    && Buildable(Todo(s)[s.round.k].job)
    && t == s.(sent := s.sent + [Todo(s)[s.round.k]], round := s.round.(k := s.round.k + 1))
  }

  /** A round ends after its last event, or at any earlier point when something fails. */
  ghost predicate EndRound(s: State, t: State) {
    !s.round.Idle? && t == s.(round := Idle)
  }

  ghost predicate Acknowledge(s: State, t: State, x: Event) {
    x in s.sent && t == s.(acked := if x.seqNo > s.acked then x.seqNo else s.acked)
  }

  ghost predicate Next(s: State, t: State) {
    || (exists job :: Create(s, t, job))
    || ReadCursor(s, t)
    || ReadLog(s, t)
    || SendOne(s, t)
    || EndRound(s, t)
    || (exists x :: Acknowledge(s, t, x))
  }

  ghost predicate Run(states: seq<State>) {
    && states != []
    && Init(states[0])
    && forall i | 0 < i < |states| :: Next(states[i - 1], states[i])
  }

  // ----- the invariant -----

  ghost predicate LogOk(log: seq<Event>) {
    && Typed(log)
    && forall i | 0 <= i < |log| :: log[i].seqNo == i + 1
  }

  ghost predicate InLog(log: seq<Event>, x: Event) {
    1 <= x.seqNo <= |log| && log[x.seqNo - 1] == x
  }

  /** The event at index p of the log is in the stream. */
  ghost predicate Delivered(sent: seq<Event>, p: int) {
    exists j | 0 <= j < |sent| :: sent[j].seqNo == p + 1
  }

  /** No newer event of the same SNAPSHOT command in the log. */
  ghost predicate IsNewest(log: seq<Event>, p: int)
    requires 0 <= p < |log|
  {
    forall q | p < q < |log| :: !SameSnapshot(log[p], log[q])
  }

  /** A cursor is where nothing has been sent, or at an event that was. */
  ghost predicate Cursor(a: int, sent: seq<Event>) {
    a == 0 || Delivered(sent, a - 1)
  }

  ghost predicate SentOk(seen: seq<Event>, sent: seq<Event>) {
    forall i | 0 <= i < |sent| :: InLog(seen, sent[i]) && Buildable(sent[i].job)
  }

  ghost predicate ActionsBefore(log: seq<Event>, sent: seq<Event>, i: int)
    requires 0 <= i < |sent|
  {
    forall p | 0 <= p < |log| && p < sent[i].seqNo && log[p].mode.Action? :: Delivered(sent[..i + 1], p)
  }

  /** When an event is sent, every ACTION event before it already was. */
  ghost predicate ActionsFirst(log: seq<Event>, sent: seq<Event>) {
    forall i | 0 <= i < |sent| :: ActionsBefore(log, sent, i)
  }

  ghost predicate NewestBefore(seen: seq<Event>, sent: seq<Event>, i: int)
    requires 0 <= i < |sent|
  {
    forall p | 0 <= p < |seen| && p < sent[i].seqNo && IsNewest(seen, p) :: Delivered(sent, p)
  }

  /** Everything still newest in what a round saw is sent before anything after it. */
  ghost predicate NewestCovered(seen: seq<Event>, sent: seq<Event>) {
    forall i | 0 <= i < |sent| :: NewestBefore(seen, sent, i)
  }

  /** A SNAPSHOT command is never sent an older event after a newer one. */
  ghost predicate SnapshotsMonotone(sent: seq<Event>) {
    forall i, j | 0 <= i < j < |sent| && SameSnapshot(sent[i], sent[j]) :: sent[i].seqNo <= sent[j].seqNo
  }

  ghost predicate RoundOk(s: State) {
    && (s.round.AtCursor? ==> 0 <= s.round.from <= |s.log| && Cursor(s.round.from, s.sent))
    && (s.round.Sending? ==>
      && 0 <= s.round.from <= s.round.read <= |s.log|
      && Cursor(s.round.from, s.sent)
      && TailSent(s.sent, Todo(s), s.round.k))
  }

  ghost predicate TailSent(sent: seq<Event>, todo: seq<Event>, k: nat) {
    && k <= |todo| && k <= |sent|
    && forall q | 0 <= q < k :: sent[|sent| - k + q] == todo[q]
  }

  ghost predicate Inv(s: State) {
    && LogOk(s.log)
    && 0 <= s.acked <= |s.log|
    && Cursor(s.acked, s.sent)
    && RoundOk(s)
    && SentOk(Seen(s), s.sent)
    && ActionsFirst(s.log, s.sent)
    && NewestCovered(Seen(s), s.sent)
    && SnapshotsMonotone(s.sent)
  }

  // ----- the to-do list by log index -----

  lemma {:induction false} AfterMembers(log: seq<Event>, a: int, x: Event)
    ensures x in After(log, a) <==> x in log && x.seqNo > a
  {
    if log != [] {
      AfterMembers(log[1..], a, x);
      assert log == [log[0]] + log[1..];
    }
  }

  lemma {:induction false} AfterIncreasing(log: seq<Event>, a: int)
    requires Increasing(log)
    ensures Increasing(After(log, a))
  {
    if log != [] {
      AfterIncreasing(log[1..], a);
      forall x | x in After(log[1..], a) ensures log[0].seqNo < x.seqNo {
        AfterMembers(log[1..], a, x);
        var k :| 0 <= k < |log[1..]| && log[1..][k] == x;
        assert x == log[k + 1];
      }
    }
  }

  lemma TodoIncreasing(seen: seq<Event>, from: int)
    requires LogOk(seen)
    ensures Increasing(After(seen, from)) && Increasing(Compact(After(seen, from)))
  {
    AfterIncreasing(seen, from);
    CompactIncreasing(After(seen, from));
  }

  /** An entry of a to-do list is an unacknowledged event that is newest of its kind. */
  lemma TodoEntry(seen: seq<Event>, from: int, q: int)
    requires LogOk(seen) && 0 <= q < |Compact(After(seen, from))|
    ensures var x := Compact(After(seen, from))[q];
            InLog(seen, x) && x.seqNo > from && IsNewest(seen, x.seqNo - 1)
  {
    var rest := After(seen, from);
    var x := Compact(rest)[q];
    TodoIncreasing(seen, from);
    CompactMembers(rest, x);
    AfterMembers(seen, from, x);
    forall m | x.seqNo - 1 < m < |seen| ensures !SameSnapshot(x, seen[m]) {
      AfterMembers(seen, from, seen[m]);
    }
  }

  /** Conversely every unacknowledged event that is newest of its kind is an entry. */
  lemma TodoHas(seen: seq<Event>, from: int, p: int) returns (q: int)
    requires LogOk(seen) && 0 <= p < |seen| && from <= p
    requires IsNewest(seen, p)
    ensures 0 <= q < |Compact(After(seen, from))| && Compact(After(seen, from))[q] == seen[p]
  {
    var rest := After(seen, from);
    TodoIncreasing(seen, from);
    AfterMembers(seen, from, seen[p]);
    forall y | y in rest && SameSnapshot(seen[p], y) ensures y.seqNo <= seen[p].seqNo {
      AfterMembers(seen, from, y);
      var m :| 0 <= m < |seen| && seen[m] == y;
    }
    CompactMembers(rest, seen[p]);
    q :| 0 <= q < |Compact(rest)| && Compact(rest)[q] == seen[p];
  }

  lemma ActionsAreNewest(log: seq<Event>, p: int)
    requires 0 <= p < |log| && log[p].mode.Action?
    ensures IsNewest(log, p)
  {
  }

  // ----- sending keeps the invariant -----

  lemma DeliveredExtends(sent: seq<Event>, x: Event, p: int)
    ensures Delivered(sent + [x], p) <==> Delivered(sent, p) || x.seqNo == p + 1
  {
    var t := sent + [x];
    if j :| 0 <= j < |sent| && sent[j].seqNo == p + 1 {
      assert t[j].seqNo == p + 1;
    }
    if x.seqNo == p + 1 {
      assert t[|sent|].seqNo == p + 1;
    }
  }

  /** Before the k-th entry goes out, everything newest below it is in the stream. */
  lemma BelowIsDelivered(seen: seq<Event>, sent: seq<Event>, from: int, k: nat, p: int)
    requires LogOk(seen) && 0 <= from && Cursor(from, sent) && NewestCovered(seen, sent)
    requires k < |Compact(After(seen, from))| && TailSent(sent, Compact(After(seen, from)), k)
    requires 0 <= p < |seen| && p + 1 < Compact(After(seen, from))[k].seqNo && IsNewest(seen, p)
    ensures Delivered(sent, p)
  {
    var todo := Compact(After(seen, from));
    if from <= p {
      var q := TodoHas(seen, from, p);
      TodoIncreasing(seen, from);
      assert q < k;
      assert sent[|sent| - k + q].seqNo == p + 1;
    } else {
      var i :| 0 <= i < |sent| && sent[i].seqNo == from - 1 + 1;
      assert NewestBefore(seen, sent, i);
    }
  }

  lemma SendKeepsActionsFirst(log: seq<Event>, seen: seq<Event>, sent: seq<Event>, from: int, k: nat)
    requires LogOk(log) && LogOk(seen) && seen <= log && 0 <= from
    requires Cursor(from, sent) && ActionsFirst(log, sent) && NewestCovered(seen, sent)
    requires k < |Compact(After(seen, from))| && TailSent(sent, Compact(After(seen, from)), k)
    ensures ActionsFirst(log, sent + [Compact(After(seen, from))[k]])
  {
    var x := Compact(After(seen, from))[k];
    var t := sent + [x];
    TodoEntry(seen, from, k);
    forall i | 0 <= i < |sent| ensures ActionsBefore(log, t, i) {
      assert ActionsBefore(log, sent, i);
      assert t[..i + 1] == sent[..i + 1];
    }
    assert t[..|sent| + 1] == t;
    forall p | 0 <= p < |log| && p < x.seqNo && log[p].mode.Action? ensures Delivered(t, p) {
      DeliveredExtends(sent, x, p);
      assert seen[p] == log[p];
      ActionsAreNewest(seen, p);
      if p + 1 < x.seqNo {
        BelowIsDelivered(seen, sent, from, k, p);
      }
    }
    assert ActionsBefore(log, t, |sent|);
  }

  lemma SendKeepsNewestCovered(seen: seq<Event>, sent: seq<Event>, from: int, k: nat)
    requires LogOk(seen) && 0 <= from && Cursor(from, sent) && NewestCovered(seen, sent)
    requires k < |Compact(After(seen, from))| && TailSent(sent, Compact(After(seen, from)), k)
    ensures NewestCovered(seen, sent + [Compact(After(seen, from))[k]])
  {
    var x := Compact(After(seen, from))[k];
    var t := sent + [x];
    forall i, p | 0 <= i < |t| && 0 <= p < |seen| && p < t[i].seqNo && IsNewest(seen, p)
      ensures Delivered(t, p)
    {
      DeliveredExtends(sent, x, p);
      if i < |sent| {
        assert NewestBefore(seen, sent, i);
      } else if p + 1 < x.seqNo {
        BelowIsDelivered(seen, sent, from, k, p);
      }
    }
    assert forall i | 0 <= i < |t| :: NewestBefore(seen, t, i);
  }

  lemma SendKeepsMonotone(seen: seq<Event>, sent: seq<Event>, from: int, k: nat)
    requires LogOk(seen) && SentOk(seen, sent) && SnapshotsMonotone(sent)
    requires k < |Compact(After(seen, from))|
    ensures SnapshotsMonotone(sent + [Compact(After(seen, from))[k]])
  {
    var x := Compact(After(seen, from))[k];
    TodoEntry(seen, from, k);
    forall i | 0 <= i < |sent| && SameSnapshot(sent[i], x) ensures sent[i].seqNo <= x.seqNo {
      assert SameSnapshot(x, seen[sent[i].seqNo - 1]);
    }
  }

  lemma TailExtends(sent: seq<Event>, todo: seq<Event>, k: nat)
    requires k < |todo| && TailSent(sent, todo, k)
    ensures TailSent(sent + [todo[k]], todo, k + 1)
  {
    var t := sent + [todo[k]];
    forall q | 0 <= q < k + 1 ensures t[|t| - (k + 1) + q] == todo[q] {
      if q < k {
        assert sent[|sent| - k + q] == todo[q];
      }
    }
  }

  lemma SentExtends(seen: seq<Event>, sent: seq<Event>, x: Event)
    requires SentOk(seen, sent) && InLog(seen, x) && Buildable(x.job)
    ensures SentOk(seen, sent + [x])
  {
  }

  /** What one more send keeps of the claims about the stream. */
  lemma SendKeepsHistory(log: seq<Event>, seen: seq<Event>, sent: seq<Event>, from: nat, k: nat)
    requires LogOk(log) && LogOk(seen) && seen <= log && 0 <= from && Cursor(from, sent)
    requires ActionsFirst(log, sent) && NewestCovered(seen, sent) && SentOk(seen, sent) && SnapshotsMonotone(sent)
    requires k < |Compact(After(seen, from))| && TailSent(sent, Compact(After(seen, from)), k)
    ensures var t := sent + [Compact(After(seen, from))[k]];
            ActionsFirst(log, t) && NewestCovered(seen, t) && SnapshotsMonotone(t)
  {
    SendKeepsActionsFirst(log, seen, sent, from, k);
    SendKeepsNewestCovered(seen, sent, from, k);
    SendKeepsMonotone(seen, sent, from, k);
  }

  lemma SendKeepsRound(s: State, t: State)
    requires RoundOk(s) && Cursor(s.acked, s.sent) && SendOne(s, t)
    ensures RoundOk(t) && Cursor(t.acked, t.sent)
  {
    var todo, k := Todo(s), s.round.k;
    assert Todo(t) == todo;
    DeliveredExtends(s.sent, todo[k], s.round.from - 1);
    DeliveredExtends(s.sent, todo[k], s.acked - 1);
    TailExtends(s.sent, todo, k);
  }

  lemma SendKeepsInv(s: State, t: State)
    requires Inv(s) && SendOne(s, t)
    ensures Inv(t)
  {
    var seen, todo, from, k := Seen(s), Todo(s), s.round.from, s.round.k;
    assert Todo(t) == todo && Seen(t) == seen;
    TodoEntry(seen, from, k);
    SendKeepsHistory(s.log, seen, s.sent, from, k);
    SendKeepsRound(s, t);
    SentExtends(seen, s.sent, todo[k]);
  }

  // ----- the other steps -----

  lemma GrowKeepsCovered(old_: seq<Event>, new_: seq<Event>, sent: seq<Event>)
    requires old_ <= new_ && SentOk(old_, sent) && NewestCovered(old_, sent)
    ensures SentOk(new_, sent) && NewestCovered(new_, sent)
  {
    forall i, p | 0 <= i < |sent| && 0 <= p < |new_| && p < sent[i].seqNo && IsNewest(new_, p)
      ensures Delivered(sent, p)
    {
      assert InLog(old_, sent[i]) && NewestBefore(old_, sent, i);
      forall q | p < q < |old_| ensures !SameSnapshot(old_[p], old_[q]) {
        assert new_[q] == old_[q];
      }
      assert IsNewest(old_, p);
    }
    assert forall i | 0 <= i < |sent| :: NewestBefore(new_, sent, i);
  }

  lemma GrowKeepsActionsFirst(seen: seq<Event>, log: seq<Event>, new_: seq<Event>, sent: seq<Event>)
    requires seen <= log <= new_ && SentOk(seen, sent) && ActionsFirst(log, sent)
    ensures ActionsFirst(new_, sent)
  {
    forall i | 0 <= i < |sent| ensures ActionsBefore(new_, sent, i) {
      assert InLog(seen, sent[i]) && ActionsBefore(log, sent, i);
      assert forall p | 0 <= p < |log| :: log[p] == new_[p];
    }
  }

  lemma CreateKeepsInv(s: State, t: State, job: Job)
    requires Inv(s) && Create(s, t, job)
    ensures Inv(t)
  {
    assert s.log <= t.log;
    assert Typed(t.log) by {
      assert t.log == s.log + [t.log[|s.log|]];
    }
    GrowKeepsActionsFirst(Seen(s), s.log, t.log, s.sent);
    if s.round.Sending? {
      assert Seen(t) == Seen(s);
    } else {
      GrowKeepsCovered(s.log, t.log, s.sent);
    }
  }

  lemma NextKeepsInv(s: State, t: State)
    requires Inv(s) && Next(s, t)
    ensures Inv(t)
  {
    if job :| Create(s, t, job) {
      CreateKeepsInv(s, t, job);
    } else if SendOne(s, t) {
      SendKeepsInv(s, t);
    } else if ReadCursor(s, t) || ReadLog(s, t) {
      assert Seen(t) == s.log == Seen(s);
    } else if EndRound(s, t) {
      GrowKeepsCovered(Seen(s), s.log, s.sent);
    } else {
      var x :| Acknowledge(s, t, x);
      AcknowledgeKeepsInv(s, t, x);
    }
  }

  lemma AcknowledgeKeepsInv(s: State, t: State, x: Event)
    requires Inv(s) && Acknowledge(s, t, x)
    ensures Inv(t)
  {
    var j :| 0 <= j < |s.sent| && s.sent[j] == x;
    assert InLog(Seen(s), s.sent[j]);
    assert Delivered(s.sent, x.seqNo - 1);
    assert Seen(t) == Seen(s);
  }

  lemma {:induction false} InvAlongRun(states: seq<State>, i: nat)
    requires Run(states) && i < |states|
    ensures Inv(states[i])
  {
    if i > 0 {
      InvAlongRun(states, i - 1);
      NextKeepsInv(states[i - 1], states[i]);
    }
  }

  // ----- main results -----

  ghost predicate RoundDone(s: State) {
    s.round.Sending? && s.round.k == |Todo(s)|
  }

  lemma DoneCovers(s: State, p: int)
    requires Inv(s) && RoundDone(s) && 0 <= p < |Seen(s)| && IsNewest(Seen(s), p)
    ensures Delivered(s.sent, p)
  {
    var seen, from := Seen(s), s.round.from;
    if from <= p {
      var q := TodoHas(seen, from, p);
      assert s.sent[|s.sent| - s.round.k + q].seqNo == p + 1;
    } else {
      var i :| 0 <= i < |s.sent| && s.sent[i].seqNo == from - 1 + 1;
      assert NewestBefore(seen, s.sent, i);
    }
  }

  lemma SentOkGrows(seen: seq<Event>, log: seq<Event>, sent: seq<Event>)
    requires seen <= log && SentOk(seen, sent)
    ensures SentOk(log, sent)
  {
    forall i | 0 <= i < |sent| ensures InLog(log, sent[i]) && Buildable(sent[i].job) {
      assert InLog(seen, sent[i]);
    }
  }

  lemma LastIsNewest(log: seq<Event>, sent: seq<Event>, p: nat, i: nat)
    requires LogOk(log) && SnapshotsMonotone(sent) && p <= i < |sent|
    requires InLog(log, sent[p]) && InLog(log, sent[i]) && sent[i].seqNo <= sent[p].seqNo
    requires sent[p].job.command == sent[i].job.command && DeliveryModeForCommand(sent[i].job.command).Snapshot?
    ensures sent[i] == sent[p]
  {
    assert sent[p] in log && sent[i] in log;
  }

  lemma NewestInForce(log: seq<Event>, sent: seq<Event>, command: Command)
    requires LogOk(log) && SentOk(log, sent) && SnapshotsMonotone(sent)
    requires DeliveryModeForCommand(command).Snapshot?
    requires LastOf(command, log) >= 0 ==> Delivered(sent, LastOf(command, log))
    ensures Agree(command, sent, log)
  {
    var j, i := LastOf(command, log), LastOf(command, sent);
    if i >= 0 {
      assert InLog(log, sent[i]) && sent[i].seqNo - 1 <= j;
      var p :| 0 <= p < |sent| && sent[p].seqNo == j + 1;
      assert InLog(log, sent[p]) && i >= p;
      LastIsNewest(log, sent, p, i);
    } else {
      forall p | 0 <= p < |sent| ensures sent[p].seqNo != j + 1 {
        assert InLog(log, sent[p]);
      }
    }
  }

  lemma NewestSent(s: State, command: Command)
    requires Inv(s) && RoundDone(s) && DeliveryModeForCommand(command).Snapshot?
    ensures Agree(command, s.sent, Seen(s))
  {
    var j := LastOf(command, Seen(s));
    if j >= 0 {
      assert Seen(s)[j] in s.log;
      DoneCovers(s, j);
    }
    NewestInForce(Seen(s), s.sent, command);
  }

  /** Whatever was compacted away, sent in part, failed, sent again or acknowledged before:
      in every run, once a round has sent its whole list, the stream sent so far leaves the
      gateway's registers as every event the round saw, applied once in order, would; and
      every ACTION event the round saw has been sent. */
  lemma DeliveryConverges(states: seq<State>, i: nat, r: Registers)
    requires Run(states) && i < |states| && RoundDone(states[i])
    ensures var s := states[i];
            HandleAll(r, s.sent) == HandleAll(r, Seen(s)) &&
            forall p | 0 <= p < |Seen(s)| && Seen(s)[p].mode.Action? :: Seen(s)[p] in s.sent
  {
    var s := states[i];
    InvAlongRun(states, i);
    NewestSent(s, CrlSync);
    NewestSent(s, ConnectorSync);
    AgreementFixesRegisters(r, s.sent, Seen(s));
    forall p | 0 <= p < |Seen(s)| && Seen(s)[p].mode.Action? ensures Seen(s)[p] in s.sent {
      ActionsAreNewest(Seen(s), p);
      DoneCovers(s, p);
      DeliveredIsSent(Seen(s), s.sent, p);
    }
  }

  lemma DeliveredIsSent(seen: seq<Event>, sent: seq<Event>, p: nat)
    requires SentOk(seen, sent) && p < |seen| && Delivered(sent, p)
    ensures seen[p] in sent
  {
    var j :| 0 <= j < |sent| && sent[j].seqNo == p + 1;
    assert InLog(seen, sent[j]);
  }

  lemma SentIsLogged(s: State, p: nat)
    requires Inv(s) && p < |s.log| && Delivered(s.sent, p)
    ensures s.log[p] in s.sent
  {
    var j :| 0 <= j < |s.sent| && s.sent[j].seqNo == p + 1;
    assert InLog(Seen(s), s.sent[j]);
  }

  lemma ActionBeforeCursor(s: State, p: nat)
    requires Inv(s) && p < s.acked && p < |s.log| && s.log[p].mode.Action?
    ensures Delivered(s.sent, p)
  {
    var n :| 0 <= n < |s.sent| && s.sent[n].seqNo == s.acked - 1 + 1;
    assert ActionsBefore(s.log, s.sent, n);
    var j :| 0 <= j < n + 1 && s.sent[..n + 1][j].seqNo == p + 1;
    assert s.sent[j].seqNo == p + 1;
  }

  /** At every moment of every run: the cursor never covers an ACTION event that was not
      sent, and first deliveries of ACTION events happen in sequence order. */
  lemma ActionsNeverLost(states: seq<State>, i: nat)
    requires Run(states) && i < |states|
    ensures var s := states[i];
            forall p | 0 <= p < s.acked && p < |s.log| && s.log[p].mode.Action? :: s.log[p] in s.sent
    ensures ActionsFirst(states[i].log, states[i].sent)
  {
    var s := states[i];
    InvAlongRun(states, i);
    forall p | 0 <= p < s.acked && p < |s.log| && s.log[p].mode.Action? ensures s.log[p] in s.sent {
      ActionBeforeCursor(s, p);
      SentIsLogged(s, p);
    }
  }

  lemma NewestUnderCursor(s: State, j: int)
    requires Inv(s) && 0 <= j < s.acked && IsNewest(s.log, j)
    ensures j < |Seen(s)| && IsNewest(Seen(s), j) && Delivered(s.sent, j)
  {
    var seen := Seen(s);
    var n :| 0 <= n < |s.sent| && s.sent[n].seqNo == s.acked - 1 + 1;
    assert InLog(seen, s.sent[n]);
    assert NewestBefore(seen, s.sent, n);
    forall q | j < q < |seen| ensures !SameSnapshot(seen[j], seen[q]) {
      assert s.log[q] == seen[q];
    }
  }

  /** At every moment of every run: if the newest event of a SNAPSHOT command is at or
      below the cursor (or there is none), the stream has put it in force.  This is what
      the second of two senders may rely on. */
  lemma CursorCoversSnapshots(states: seq<State>, i: nat, command: Command)
    requires Run(states) && i < |states| && DeliveryModeForCommand(command).Snapshot?
    requires LastOf(command, states[i].log) < states[i].acked
    ensures Agree(command, states[i].sent, states[i].log)
  {
    var s := states[i];
    InvAlongRun(states, i);
    var j := LastOf(command, s.log);
    if j >= 0 {
      assert s.log[j] in s.log;
      NewestUnderCursor(s, j);
    }
    SentOkGrows(Seen(s), s.log, s.sent);
    NewestInForce(s.log, s.sent, command);
  }

  /** The cursor is the highest acknowledgement: it never goes back, and it stays at or above every
      event that was acknowledged. */
  lemma {:induction false} CursorNeverGoesBack(states: seq<State>, i: nat, j: nat)
    requires Run(states) && i <= j < |states|
    ensures states[i].acked <= states[j].acked
  {
    if i < j {
      CursorNeverGoesBack(states, i, j - 1);
      assert Next(states[j - 1], states[j]);
    }
  }

  lemma CursorIsHighestAck(states: seq<State>, i: nat, j: nat, x: Event)
    requires Run(states) && i < j < |states| && Acknowledge(states[i], states[i + 1], x)
    ensures x.seqNo <= states[j].acked && (states[i + 1].acked == x.seqNo || states[i + 1].acked == states[i].acked)
  {
    CursorNeverGoesBack(states, i + 1, j);
  }

  /** An event whose command cannot be built blocks the log for good: nothing after it is
      ever sent and the cursor never reaches it. */
  lemma UnbuildableBlocks(states: seq<State>, i: nat, p: nat)
    requires Run(states) && i < |states| && p < |states[i].log| && states[i].log[p].job.command.Unknown?
    ensures forall x | x in states[i].sent :: x.seqNo <= p
    ensures states[i].acked <= p
  {
    var s := states[i];
    InvAlongRun(states, i);
    assert s.log[p] in s.log;
    forall j | 0 <= j < |s.sent| ensures s.sent[j].seqNo != p + 1 {
      assert InLog(Seen(s), s.sent[j]);
    }
    forall k | 0 <= k < |s.sent| ensures s.sent[k].seqNo <= p {
      assert ActionsBefore(s.log, s.sent, k);
      assert !Delivered(s.sent[..k + 1], p);
    }
  }

  /** A round over a log can send its whole list iff every unacknowledged event can be
      built: compaction never hides one that cannot. */
  lemma RoundCompletesIff(log: seq<Event>, from: nat)
    requires LogOk(log)
    ensures var todo := Compact(After(log, from));
            BuildablePrefix(todo) == |todo| <==> forall p | from <= p < |log| :: !log[p].job.command.Unknown?
  {
    var todo := Compact(After(log, from));
    var n := BuildablePrefix(todo);
    if n == |todo| {
      forall p | from <= p < |log| ensures !log[p].job.command.Unknown? {
        assert log[p] in log;
        if log[p].mode.Action? {
          ActionsAreNewest(log, p);
          var q := TodoHas(log, from, p);
        }
      }
    } else {
      TodoEntry(log, from, n);
    }
  }

  // ----- the dispatcher's round is a run of this machine -----

  lemma OneMore(states: seq<State>, t: State) returns (longer: seq<State>)
    requires Run(states) && Next(states[|states| - 1], t)
    ensures Run(longer) && states <= longer && longer[|longer| - 1] == t
  {
    longer := states + [t];
  }

  /** The state a round is in after k sends. */
  function AfterSends(s: State, k: nat): State
    requires k <= |Compact(After(s.log, s.acked))|
  {
    s.(sent := s.sent + Compact(After(s.log, s.acked))[..k], round := Sending(s.acked, |s.log|, k))
  }

  lemma OneMoreSent(sent: seq<Event>, todo: seq<Event>, k: nat)
    requires k < |todo|
    ensures sent + todo[..k + 1] == (sent + todo[..k]) + [todo[k]]
  {
  }

  lemma TodoAfterSends(s: State, k: nat)
    requires k <= |Compact(After(s.log, s.acked))|
    ensures Seen(AfterSends(s, k)) == s.log && Todo(AfterSends(s, k)) == Compact(After(s.log, s.acked))
  {
    assert s.log[..|s.log|] == s.log;
  }

  lemma SendStep(s: State, k: nat)
    requires k < BuildablePrefix(Compact(After(s.log, s.acked)))
    ensures SendOne(AfterSends(s, k), AfterSends(s, k + 1))
  {
    var todo := Compact(After(s.log, s.acked));
    TodoAfterSends(s, k);
    OneMoreSent(s.sent, todo, k);
    assert Buildable(todo[k].job);
  }

  lemma {:induction false} SendsAreSteps(states: seq<State>, k: nat) returns (longer: seq<State>)
    requires Run(states) && states[|states| - 1].round.Idle?
    requires var s := states[|states| - 1]; k <= BuildablePrefix(Compact(After(s.log, s.acked)))
    ensures Run(longer) && states <= longer && longer[|longer| - 1] == AfterSends(states[|states| - 1], k)
  {
    var s := states[|states| - 1];
    if k == 0 {
      assert s.sent + [] == s.sent;
      assert ReadCursor(s, s.(round := AtCursor(s.acked)));
      longer := OneMore(states, s.(round := AtCursor(s.acked)));
      assert ReadLog(s.(round := AtCursor(s.acked)), AfterSends(s, 0));
      longer := OneMore(longer, AfterSends(s, 0));
    } else {
      longer := SendsAreSteps(states, k - 1);
      SendStep(s, k - 1);
      longer := OneMore(longer, AfterSends(s, k));
    }
  }

  /** What DeliverPending does, wherever it stops, is what a round of the machine can do:
      after any run that is between rounds, sending the first k events of the list that is
      still to be sent, up to the first one that cannot be built, continues the run. */
  lemma DispatcherRoundIsARun(states: seq<State>, k: nat) returns (longer: seq<State>)
    requires Run(states) && states[|states| - 1].round.Idle?
    requires var s := states[|states| - 1]; k <= BuildablePrefix(Compact(After(s.log, s.acked)))
    ensures Run(longer) && states <= longer
    ensures var s := states[|states| - 1];
            longer[|longer| - 1] == s.(sent := s.sent + Compact(After(s.log, s.acked))[..k])
  {
    var s := states[|states| - 1];
    longer := SendsAreSteps(states, k);
    assert EndRound(AfterSends(s, k), AfterSends(s, k).(round := Idle));
    longer := OneMore(longer, AfterSends(s, k).(round := Idle));
  }

  // ----- two senders at once -----

  ghost predicate Interleaving(a: seq<Event>, b: seq<Event>, c: seq<Event>)
    decreases |a| + |b|
  {
    if c == [] then a == [] && b == []
    else || (a != [] && a[0] == c[0] && Interleaving(a[1..], b, c[1..]))
         || (b != [] && b[0] == c[0] && Interleaving(a, b[1..], c[1..]))
  }

  lemma {:induction false} InterleavingMembers(a: seq<Event>, b: seq<Event>, c: seq<Event>, x: Event)
    requires Interleaving(a, b, c)
    ensures x in c <==> x in a || x in b
    decreases |a| + |b|
  {
    if c != [] {
      if a != [] && a[0] == c[0] && Interleaving(a[1..], b, c[1..]) {
        InterleavingMembers(a[1..], b, c[1..], x);
        assert a == [a[0]] + a[1..] && c == [c[0]] + c[1..];
      } else {
        InterleavingMembers(a, b[1..], c[1..], x);
        assert b == [b[0]] + b[1..] && c == [c[0]] + c[1..];
      }
    }
  }

  lemma {:induction false} OneAfterTheOther(a: seq<Event>, b: seq<Event>)
    ensures Interleaving(a, b, b + a)
    decreases |a| + |b|
  {
    if b != [] {
      assert (b + a)[1..] == b[1..] + a;
      OneAfterTheOther(a, b[1..]);
    } else if a != [] {
      assert (b + a)[1..] == [] + a[1..];
      OneAfterTheOther(a[1..], []);
    }
  }

  ghost predicate UpToDate(e: Event, log: seq<Event>) {
    var j := LastOf(e.job.command, log);
    j >= 0 && log[j].job == e.job
  }

  /** The SNAPSHOT events in `a` all say what the newest of their command says. */
  ghost predicate Fresh(a: seq<Event>, log: seq<Event>) {
    forall i | 0 <= i < |a| && a[i].mode.Snapshot? :: UpToDate(a[i], log)
  }

  ghost predicate AgreeOnSnapshots(a: seq<Event>, b: seq<Event>) {
    Agree(CrlSync, a, b) && Agree(ConnectorSync, a, b)
  }

  lemma LastOfIs(command: Command, es: seq<Event>, i: int)
    requires -1 <= i < |es| && (i >= 0 ==> es[i].job.command == command)
    requires forall j | i < j < |es| :: es[j].job.command != command
    ensures LastOf(command, es) == i
  {
  }

  lemma LastOfAppend(command: Command, a: seq<Event>, b: seq<Event>)
    ensures var i := LastOf(command, b);
            LastOf(command, a + b) == if i >= 0 then |a| + i else LastOf(command, a)
  {
    var i := LastOf(command, b);
    LastOfIs(command, a + b, if i >= 0 then |a| + i else LastOf(command, a));
  }

  lemma NewestInTodo(log: seq<Event>, from: nat, command: Command)
    requires LogOk(log) && DeliveryModeForCommand(command).Snapshot?
    ensures var todo, j := Compact(After(log, from)), LastOf(command, log);
            (forall q | 0 <= q < |todo| && todo[q].job.command == command :: j >= 0 && todo[q] == log[j]) &&
            (j >= from ==> log[j] in todo)
  {
    var todo, j := Compact(After(log, from)), LastOf(command, log);
    forall q | 0 <= q < |todo| && todo[q].job.command == command ensures j >= 0 && todo[q] == log[j] {
      TodoEntry(log, from, q);
      assert log[j] in log && todo[q] in log;
    }
    if j >= from {
      assert IsNewest(log, j);
      var q := TodoHas(log, from, j);
    }
  }

  /** However the two senders are scheduled, the registers end as the log says. */
  ghost predicate EveryScheduleAgrees(log: seq<Event>, sent: seq<Event>, a: seq<Event>, b: seq<Event>) {
    forall c | Interleaving(a, b, c) :: AgreeOnSnapshots(sent + c, log)
  }

  /** The worker's rounds are serial, but the reconciliation of a fresh connection sends its
      own list on the same connection.  Let `a` be what one of the two still has to send
      when the other reads the log and starts sending `b`.  Every interleaving of the two
      leaves the registers as the log says iff no SNAPSHOT left in `a` is out of date: what
      has to hold at the moment the second sender starts. */
  lemma TwoSendersConvergeIff(log: seq<Event>, sent: seq<Event>, from: nat, a: seq<Event>, b: seq<Event>)
    requires LogOk(log) && Typed(a)
    requires forall i, j | 0 <= i < j < |a| :: !SameSnapshot(a[i], a[j])
    requires b == Compact(After(log, from))
    requires LastOf(CrlSync, log) < from ==> Agree(CrlSync, sent, log)
    requires LastOf(ConnectorSync, log) < from ==> Agree(ConnectorSync, sent, log)
    ensures EveryScheduleAgrees(log, sent, a, b) <==> Fresh(a, log)
  {
    if Fresh(a, log) {
      forall c | Interleaving(a, b, c) ensures AgreeOnSnapshots(sent + c, log) {
        FreshConverges(log, sent, from, a, b, c, CrlSync);
        FreshConverges(log, sent, from, a, b, c, ConnectorSync);
      }
    } else {
      StaleDiverges(log, sent, a, b);
    }
  }

  lemma StaleDiverges(log: seq<Event>, sent: seq<Event>, a: seq<Event>, b: seq<Event>)
    requires Typed(a) && !Fresh(a, log)
    requires forall i, j | 0 <= i < j < |a| :: !SameSnapshot(a[i], a[j])
    ensures !EveryScheduleAgrees(log, sent, a, b)
  {
    var n :| 0 <= n < |a| && a[n].mode.Snapshot? && !UpToDate(a[n], log);
    assert DeliveryModeForCommand(a[n].job.command).Snapshot? by {
      assert a[n] in a;
    }
    StaleOvertakes(log, sent, a, b, n);
    var c := b + a;
    assert !AgreeOnSnapshots(sent + c, log);
  }

  lemma StaleOvertakes(log: seq<Event>, sent: seq<Event>, a: seq<Event>, b: seq<Event>, n: nat)
    requires Typed(a) && n < |a| && a[n].mode.Snapshot? && !UpToDate(a[n], log)
    requires forall i, j | 0 <= i < j < |a| :: !SameSnapshot(a[i], a[j])
    ensures Interleaving(a, b, b + a) && !Agree(a[n].job.command, sent + (b + a), log)
  {
    var command := a[n].job.command;
    OneAfterTheOther(a, b);
    forall m | n < m < |a| ensures a[m].job.command != command {
      assert a[m] in a && !SameSnapshot(a[n], a[m]);
    }
    LastOfIs(command, a, n);
    LastOfAppend(command, b, a);
    LastOfAppend(command, sent, b + a);
    assert (sent + (b + a))[|sent| + (|b| + n)] == (b + a)[|b| + n] == a[n];
  }

  /** The last event of a command that was sent says what its newest in the log says. */
  lemma FreshLast(log: seq<Event>, from: nat, a: seq<Event>, b: seq<Event>, c: seq<Event>, command: Command)
    requires LogOk(log) && Typed(a) && b == Compact(After(log, from)) && Interleaving(a, b, c)
    requires DeliveryModeForCommand(command).Snapshot? && Fresh(a, log) && LastOf(command, c) >= 0
    ensures var j := LastOf(command, log); j >= 0 && c[LastOf(command, c)].job == log[j].job
  {
    var x := c[LastOf(command, c)];
    InterleavingMembers(a, b, c, x);
    if x in a {
      var n :| 0 <= n < |a| && a[n] == x;
      assert UpToDate(a[n], log);
    } else {
      NewestInTodo(log, from, command);
      var q :| 0 <= q < |b| && b[q] == x;
    }
  }

  lemma FreshConverges(log: seq<Event>, sent: seq<Event>, from: nat,
                       a: seq<Event>, b: seq<Event>, c: seq<Event>, command: Command)
    requires LogOk(log) && Typed(a) && b == Compact(After(log, from)) && Interleaving(a, b, c)
    requires DeliveryModeForCommand(command).Snapshot? && Fresh(a, log)
    requires LastOf(command, log) < from ==> Agree(command, sent, log)
    ensures Agree(command, sent + c, log)
  {
    var j, i := LastOf(command, log), LastOf(command, c);
    LastOfAppend(command, sent, c);
    if i >= 0 {
      FreshLast(log, from, a, b, c, command);
      assert (sent + c)[|sent| + i] == c[i];
    } else if j >= from {
      NewestInTodo(log, from, command);
      InterleavingMembers(a, b, c, log[j]);
      assert false;
    }
  }

  function Revocation(n: nat, serials: seq<string>): Event {
    Event(n, Snapshot, Job(CrlSync, "", serials, []))
  }

  lemma OneEvent(e: Event)
    requires e.seqNo > 0
    ensures After([e], 0) == [e] && Compact([e]) == [e]
  {
    assert [e][1..] == [];
    assert !Superseded(e, []);
  }

  lemma OlderAndNewer(serial: string)
    ensures var e1, e2 := Revocation(1, []), Revocation(2, [serial]);
            LogOk([e1, e2]) && [e1, e2][..1] == [e1] &&
            Compact(After([e1, e2], 0)) == [e2] && Compact(After([e1], 0)) == [e1]
  {
    var e1, e2 := Revocation(1, []), Revocation(2, [serial]);
    assert [e1, e2][1..] == [e2] && [e1, e2] == [e1] + [e2];
    OneEvent(e1);
    OneEvent(e2);
    assert After([e1, e2], 0) == [e1, e2];
    assert e2 in [e2] && SameSnapshot(e1, e2) && Superseded(e1, [e2]);
  }

  /** Such a run exists: two revocation lists in the log, the older one still to be sent by
      the reconciliation when the worker sends the newer one and is overtaken. */
  lemma StaleRevocationList(serial: string)
    ensures exists log, a, b, c ::
              LogOk(log) && |log| == 2 && Interleaving(a, b, c) &&
              b == Compact(After(log, 0)) && a == Compact(After(log[..1], 0)) &&
              HandleAll(Registers({}, map[]), c).crl != HandleAll(Registers({}, map[]), log).crl
  {
    var e1, e2 := Revocation(1, []), Revocation(2, [serial]);
    var log, a, b := [e1, e2], [e1], [e2];
    var r := Registers({}, map[]);
    OlderAndNewer(serial);
    OneAfterTheOther(a, b);
    var c := b + a;
    RegistersAreLast(r, c);
    RegistersAreLast(r, log);
    assert LastOf(CrlSync, c) == 1 && LastOf(CrlSync, log) == 1;
    assert serial in HandleAll(r, log).crl && serial !in HandleAll(r, c).crl;
  }

  /** What the first whole round after a restart brings of a SNAPSHOT command. */
  lemma RoundBrings(log: seq<Event>, from: nat, command: Command)
    requires LogOk(log) && DeliveryModeForCommand(command).Snapshot?
    ensures var todo, j := Compact(After(log, from)), LastOf(command, log);
            var i := LastOf(command, todo);
            if j >= from then i >= 0 && todo[i] == log[j] else i < 0
  {
    var todo, j := Compact(After(log, from)), LastOf(command, log);
    NewestInTodo(log, from, command);
    var i := LastOf(command, todo);
    if j >= from {
      var q :| 0 <= q < |todo| && todo[q] == log[j];
    } else if i >= 0 {
      TodoEntry(log, from, i);
    }
  }

  // ----- the HelloAck -----

  /** A HelloAck carries the connectors as the control plane read them; its handler replaces the
      connectors register, with no regard to the commands before it. */
  function AfterHelloAck(r: Registers, before: seq<Event>, hello: seq<ConnectorInfo>, rest: seq<Event>): Registers {
    HandleAll(HandleAll(r, before).(connectors := StatusMap(hello)), rest)
  }

  /** A HelloAck overtakes newer connectors exactly when no CONNECTOR_SYNC follows it on the stream
      and what it read from the database differs from the newest one.  (`before` and `rest` are
      the commands around it, which by themselves would leave the register right.)  It never
      touches the revocations. */
  lemma HelloAckConvergesIff(log: seq<Event>, r: Registers, before: seq<Event>, hello: seq<ConnectorInfo>,
                             rest: seq<Event>)
    requires Agree(ConnectorSync, before + rest, log) && LastOf(ConnectorSync, log) >= 0
    ensures var newest := log[LastOf(ConnectorSync, log)].job.connectors;
            AfterHelloAck(r, before, hello, rest).connectors == HandleAll(r, log).connectors <==>
            LastOf(ConnectorSync, rest) >= 0 || StatusMap(hello) == StatusMap(newest)
    ensures AfterHelloAck(r, before, hello, rest).crl == HandleAll(r, before + rest).crl
  {
    var between := HandleAll(r, before);
    RegistersAreLast(r, log);
    RegistersAreLast(between, rest);
    RegistersAreLast(between.(connectors := StatusMap(hello)), rest);
    HandleAllAppend(r, before, rest);
    LastOfAppend(ConnectorSync, before, rest);
  }

  /** The connectors after a HelloAck with nothing behind it are as it lists them. */
  lemma HelloAckLists(r: Registers, before: seq<Event>, hello: seq<ConnectorInfo>, id: string)
    ensures Listed(hello, AfterHelloAck(r, before, hello, []).connectors, id)
  {
    StatusMapLists(hello, id);
  }

  // ----- a gateway that restarts -----

  /** The gateway keeps its registers in memory only, the cursor is durable.  A restarted gateway,
      with registers `r`, gets the round that the reconciliation of its connection sends, and then
      the HelloAck.  The revocations are then what the log says iff the newest CRL_SYNC is above
      the cursor, or there is none, or `r` holds its content already; the connectors are what the
      HelloAck read, so they are right iff that is the content of the newest CONNECTOR_SYNC. */
  lemma RestartedGatewayConvergesIff(log: seq<Event>, from: nat, r: Registers, hello: seq<ConnectorInfo>)
    requires LogOk(log)
    ensures var got, want := AfterHelloAck(r, Compact(After(log, from)), hello, []), HandleAll(r, log);
            var j := LastOf(CrlSync, log);
            got.crl == want.crl <==> j < 0 || j >= from || r.crl == set x | x in log[j].job.serials
    ensures var got, want := AfterHelloAck(r, Compact(After(log, from)), hello, []), HandleAll(r, log);
            var j := LastOf(ConnectorSync, log);
            got.connectors == StatusMap(hello) &&
            (j >= 0 ==> (got.connectors == want.connectors <==> StatusMap(hello) == StatusMap(log[j].job.connectors)))
  {
    RoundBrings(log, from, CrlSync);
    RegistersAreLast(r, Compact(After(log, from)));
    RegistersAreLast(r, log);
  }
}
