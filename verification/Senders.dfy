/**
 Delivery of the event log to one gateway by any number of senders at once: the dispatcher's
 worker (deliverPending in internal/cp/events/dispatcher.go) and the reconciliations of fresh
 connections (reconcileGateway in internal/cp/platform/cp_grpc/stream_handler.go) each read the
 cursor and the log, compact, and send one event after the other, in any interleaving.
 */
module Senders {
  import opened Events
  import opened Delivery

  /** A sender that read the log up to `read` after it had read the cursor as `from`, and has
      sent k events. */
  datatype Sender = Sender(from: int, read: nat, k: nat)

  /** `cursors` are those of senders that have not read the log yet. */
  datatype System = System(log: seq<Event>, acked: int, sent: seq<Event>, cursors: map<int, int>,
                           senders: map<int, Sender>)

  function List(log: seq<Event>, r: Sender): seq<Event>
    requires r.read <= |log|
  {
    Compact(After(log[..r.read], r.from))
  }

  datatype Step =
    | CreateEvent(job: Job)
    | ReadCursor(r: int)
    | ReadLog(r: int)
    | Send(r: int)
    | Stop(r: int)
    | Ack(x: Event)

  predicate Enabled(s: System, step: Step) {
    match step
    case CreateEvent(_) => true
    case ReadCursor(r) => r !in s.cursors && r !in s.senders
    case ReadLog(r) => r in s.cursors
    case Send(r) =>
      && r in s.senders && s.senders[r].read <= |s.log|
      && s.senders[r].k < |List(s.log, s.senders[r])| && Buildable(List(s.log, s.senders[r])[s.senders[r].k].job)
    case Stop(r) => r in s.senders || r in s.cursors
    case Ack(x) => x in s.sent
  }

  function Do(s: System, step: Step): System
    requires Enabled(s, step)
  {
    match step
    case CreateEvent(job) => s.(log := s.log + [Event(|s.log| + 1, DeliveryModeForCommand(job.command), job)])
    case ReadCursor(r) => s.(cursors := s.cursors[r := s.acked])
    case ReadLog(r) => s.(cursors := s.cursors - {r}, senders := s.senders[r := Sender(s.cursors[r], |s.log|, 0)])
    case Send(r) =>
      var sender := s.senders[r];
      s.(sent := s.sent + [List(s.log, sender)[sender.k]], senders := s.senders[r := sender.(k := sender.k + 1)])
    case Stop(r) => s.(cursors := s.cursors - {r}, senders := s.senders - {r})
    case Ack(x) => s.(acked := if x.seqNo > s.acked then x.seqNo else s.acked)
  }

  ghost predicate Interleaved(states: seq<System>, steps: seq<Step>) {
    && |states| == |steps| + 1 && states[0] == System([], 0, [], map[], map[])
    && forall i | 0 <= i < |steps| :: StepAt(states, steps, i)
  }

  ghost predicate StepAt(states: seq<System>, steps: seq<Step>, i: int)
    requires |states| == |steps| + 1 && 0 <= i < |steps|
  {
    Enabled(states[i], steps[i]) && states[i + 1] == Do(states[i], steps[i])
  }

  // ----- the invariant -----

  /** Whatever is newest in the log below a sent event was sent as well, by whichever sender. */
  ghost predicate NewestSentBelow(log: seq<Event>, sent: seq<Event>) {
    forall i | 0 <= i < |sent| :: NewestBefore(log, sent, i)
  }

  ghost predicate SenderOk(log: seq<Event>, sent: seq<Event>, r: Sender) {
    && 0 <= r.from <= r.read <= |log| && r.k <= |List(log, r)|
    && (forall q | 0 <= q < r.k :: Delivered(sent, List(log, r)[q].seqNo - 1))
    && (forall p | 0 <= p < r.from && IsNewest(log[..r.read], p) :: Delivered(sent, p))
  }

  ghost predicate StreamOk(log: seq<Event>, acked: int, sent: seq<Event>) {
    && LogOk(log) && 0 <= acked <= |log| && Cursor(acked, sent)
    && SentOk(log, sent) && ActionsFirst(log, sent) && NewestSentBelow(log, sent)
  }

  /** What is newest below a cursor that was read has been sent. */
  ghost predicate CursorOk(log: seq<Event>, sent: seq<Event>, from: int) {
    0 <= from <= |log| && forall p | 0 <= p < from && IsNewest(log, p) :: Delivered(sent, p)
  }

  ghost predicate AllSendersOk(s: System) {
    && (forall r | r in s.cursors :: CursorOk(s.log, s.sent, s.cursors[r]))
    && (forall r | r in s.senders :: SenderOk(s.log, s.sent, s.senders[r]))
  }

  /** Everything newest in what a sender read that comes before its next event was sent. */
  lemma BelowNext(log: seq<Event>, sent: seq<Event>, r: Sender, p: int)
    requires LogOk(log) && SenderOk(log, sent, r) && r.k < |List(log, r)|
    requires 0 <= p && p + 1 < List(log, r)[r.k].seqNo && p < r.read && IsNewest(log[..r.read], p)
    ensures Delivered(sent, p)
  {
    if r.from <= p {
      PrefixIsLog(log, r.read);
      var q := TodoHas(log[..r.read], r.from, p);
      TodoIncreasing(log[..r.read], r.from);
      assert q < r.k;
    }
  }

  lemma PrefixIsLog(log: seq<Event>, n: nat)
    requires LogOk(log) && n <= |log|
    ensures LogOk(log[..n])
  {
  }

  lemma NewestInPrefix(log: seq<Event>, n: nat, p: nat)
    requires p < n <= |log| && IsNewest(log, p)
    ensures IsNewest(log[..n], p)
  {
  }

  lemma SendKeepsActions(log: seq<Event>, sent: seq<Event>, r: Sender)
    requires LogOk(log) && SenderOk(log, sent, r) && r.k < |List(log, r)| && ActionsFirst(log, sent)
    ensures ActionsFirst(log, sent + [List(log, r)[r.k]])
  {
    var x := List(log, r)[r.k];
    var t := sent + [x];
    PrefixIsLog(log, r.read);
    TodoEntry(log[..r.read], r.from, r.k);
    forall i | 0 <= i < |sent| ensures ActionsBefore(log, t, i) {
      assert ActionsBefore(log, sent, i);
      assert t[..i + 1] == sent[..i + 1];
    }
    assert t[..|sent| + 1] == t;
    forall p | 0 <= p < |log| && p < x.seqNo && log[p].mode.Action? ensures Delivered(t, p) {
      DeliveredExtends(sent, x, p);
      if p + 1 < x.seqNo {
        ActionsAreNewest(log[..r.read], p);
        BelowNext(log, sent, r, p);
      }
    }
    assert ActionsBefore(log, t, |sent|);
  }

  lemma SendKeepsNewest(log: seq<Event>, sent: seq<Event>, r: Sender)
    requires LogOk(log) && SenderOk(log, sent, r) && r.k < |List(log, r)| && NewestSentBelow(log, sent)
    ensures NewestSentBelow(log, sent + [List(log, r)[r.k]])
  {
    var x := List(log, r)[r.k];
    var t := sent + [x];
    PrefixIsLog(log, r.read);
    TodoEntry(log[..r.read], r.from, r.k);
    forall i, p | 0 <= i < |t| && 0 <= p < |log| && p < t[i].seqNo && IsNewest(log, p) ensures Delivered(t, p) {
      DeliveredExtends(sent, x, p);
      if i < |sent| {
        assert NewestBefore(log, sent, i);
      } else if p + 1 < x.seqNo {
        NewestInPrefix(log, r.read, p);
        BelowNext(log, sent, r, p);
      }
    }
    assert forall i | 0 <= i < |t| :: NewestBefore(log, t, i);
  }

  lemma SenderStays(log: seq<Event>, sent: seq<Event>, r: Sender, x: Event)
    requires SenderOk(log, sent, r)
    ensures SenderOk(log, sent + [x], r)
  {
    forall p ensures Delivered(sent, p) ==> Delivered(sent + [x], p) {
      DeliveredExtends(sent, x, p);
    }
  }

  lemma CursorStays(log: seq<Event>, sent: seq<Event>, from: int, x: Event)
    requires CursorOk(log, sent, from)
    ensures CursorOk(log, sent + [x], from)
  {
    forall p ensures Delivered(sent, p) ==> Delivered(sent + [x], p) {
      DeliveredExtends(sent, x, p);
    }
  }

  lemma SenderAdvances(log: seq<Event>, sent: seq<Event>, r: Sender)
    requires SenderOk(log, sent, r) && r.k < |List(log, r)|
    ensures SenderOk(log, sent + [List(log, r)[r.k]], r.(k := r.k + 1))
  {
    var x, next := List(log, r)[r.k], r.(k := r.k + 1);
    SenderStays(log, sent, r, x);
    DeliveredExtends(sent, x, x.seqNo - 1);
    assert List(log, next) == List(log, r);
  }

  lemma SendKeepsOk(s: System, r: int)
    requires StreamOk(s.log, s.acked, s.sent) && AllSendersOk(s) && Enabled(s, Send(r))
    ensures var t := Do(s, Send(r)); StreamOk(t.log, t.acked, t.sent) && AllSendersOk(t)
  {
    var t, sender := Do(s, Send(r)), s.senders[r];
    var x := List(s.log, sender)[sender.k];
    assert SenderOk(s.log, s.sent, sender);
    SendKeepsActions(s.log, s.sent, sender);
    SendKeepsNewest(s.log, s.sent, sender);
    PrefixIsLog(s.log, sender.read);
    TodoEntry(s.log[..sender.read], sender.from, sender.k);
    DeliveredExtends(s.sent, x, s.acked - 1);
    SentExtends(s.log, s.sent, x);
    forall q | q in t.cursors ensures CursorOk(t.log, t.sent, t.cursors[q]) {
      CursorStays(s.log, s.sent, s.cursors[q], x);
    }
    forall q | q in t.senders ensures SenderOk(t.log, t.sent, t.senders[q]) {
      if q == r {
        SenderAdvances(s.log, s.sent, sender);
      } else {
        SenderStays(s.log, s.sent, s.senders[q], x);
      }
    }
  }

  lemma LogGrows(log: seq<Event>, e: Event, sent: seq<Event>)
    requires LogOk(log) && e.seqNo == |log| + 1 && e.mode == DeliveryModeForCommand(e.job.command)
    requires SentOk(log, sent) && ActionsFirst(log, sent) && NewestSentBelow(log, sent)
    ensures var more := log + [e];
            LogOk(more) && SentOk(more, sent) && ActionsFirst(more, sent) && NewestSentBelow(more, sent)
  {
    var more := log + [e];
    SentOkGrows(log, more, sent);
    GrowKeepsActionsFirst(log, log, more, sent);
    GrowKeepsCovered(log, more, sent);
  }

  lemma SenderInLongerLog(log: seq<Event>, e: Event, sent: seq<Event>, r: Sender)
    requires SenderOk(log, sent, r)
    ensures SenderOk(log + [e], sent, r)
  {
    assert (log + [e])[..r.read] == log[..r.read];
  }

  lemma CursorInLongerLog(log: seq<Event>, e: Event, sent: seq<Event>, from: int)
    requires CursorOk(log, sent, from)
    ensures CursorOk(log + [e], sent, from)
  {
    forall p | 0 <= p < from && IsNewest(log + [e], p) ensures Delivered(sent, p) {
      forall q | p < q < |log| ensures !SameSnapshot(log[p], log[q]) {
        assert (log + [e])[q] == log[q];
      }
    }
  }

  lemma CreateKeepsOk(s: System, job: Job)
    requires StreamOk(s.log, s.acked, s.sent) && AllSendersOk(s)
    ensures var t := Do(s, CreateEvent(job)); StreamOk(t.log, t.acked, t.sent) && AllSendersOk(t)
  {
    var e := Event(|s.log| + 1, DeliveryModeForCommand(job.command), job);
    LogGrows(s.log, e, s.sent);
    forall r | r in s.cursors ensures CursorOk(s.log + [e], s.sent, s.cursors[r]) {
      CursorInLongerLog(s.log, e, s.sent, s.cursors[r]);
    }
    forall r | r in s.senders ensures SenderOk(s.log + [e], s.sent, s.senders[r]) {
      SenderInLongerLog(s.log, e, s.sent, s.senders[r]);
    }
  }

  /** A sender starts where the cursor is: what is newest below it was sent. */
  lemma ReadCursorKeepsOk(s: System, r: int)
    requires StreamOk(s.log, s.acked, s.sent) && AllSendersOk(s) && Enabled(s, ReadCursor(r))
    ensures AllSendersOk(Do(s, ReadCursor(r)))
  {
    if s.acked > 0 {
      var i :| 0 <= i < |s.sent| && s.sent[i].seqNo == s.acked - 1 + 1;
      assert NewestBefore(s.log, s.sent, i);
    }
  }

  lemma ReadLogKeepsOk(s: System, r: int)
    requires AllSendersOk(s) && Enabled(s, ReadLog(r))
    ensures AllSendersOk(Do(s, ReadLog(r)))
  {
    assert s.log[..|s.log|] == s.log;
    assert CursorOk(s.log, s.sent, s.cursors[r]);
  }

  lemma AckKeepsOk(s: System, x: Event)
    requires StreamOk(s.log, s.acked, s.sent) && Enabled(s, Ack(x))
    ensures var t := Do(s, Ack(x)); StreamOk(t.log, t.acked, t.sent)
  {
    var j :| 0 <= j < |s.sent| && s.sent[j] == x;
    assert InLog(s.log, s.sent[j]);
    assert Delivered(s.sent, x.seqNo - 1);
  }

  lemma StepKeepsOk(s: System, step: Step)
    requires StreamOk(s.log, s.acked, s.sent) && AllSendersOk(s) && Enabled(s, step)
    ensures var t := Do(s, step); StreamOk(t.log, t.acked, t.sent) && AllSendersOk(t)
  {
    match step {
      case CreateEvent(job) => CreateKeepsOk(s, job);
      case ReadCursor(r) => ReadCursorKeepsOk(s, r);
      case ReadLog(r) => ReadLogKeepsOk(s, r);
      case Send(r) => SendKeepsOk(s, r);
      case Stop(_) =>
      case Ack(x) => AckKeepsOk(s, x);
    }
  }

  lemma {:induction false} OkAlongRun(states: seq<System>, steps: seq<Step>, i: nat)
    requires Interleaved(states, steps) && i < |states|
    ensures StreamOk(states[i].log, states[i].acked, states[i].sent) && AllSendersOk(states[i])
    decreases i
  {
    if i > 0 {
      OkAlongRun(states, steps, i - 1);
      assert StepAt(states, steps, i - 1);
      StepKeepsOk(states[i - 1], steps[i - 1]);
    }
  }

  // ----- main results -----

  /** However many senders overlap: the cursor never covers an ACTION event, nor the newest event
      of a SNAPSHOT command, that was not sent, and first deliveries of ACTION events happen in
      sequence order. */
  lemma NothingSkippedBySenders(states: seq<System>, steps: seq<Step>, i: nat)
    requires Interleaved(states, steps) && i < |states|
    ensures var s := states[i];
            forall p | 0 <= p < s.acked && p < |s.log| && IsNewest(s.log, p) :: s.log[p] in s.sent
    ensures ActionsFirst(states[i].log, states[i].sent)
  {
    var s := states[i];
    OkAlongRun(states, steps, i);
    forall p | 0 <= p < s.acked && p < |s.log| && IsNewest(s.log, p) ensures s.log[p] in s.sent {
      var n :| 0 <= n < |s.sent| && s.sent[n].seqNo == s.acked - 1 + 1;
      assert NewestBefore(s.log, s.sent, n);
      DeliveredIsSent(s.log, s.sent, p);
    }
  }

  /** A sender that is through with its list leaves nothing behind: every ACTION event it read,
      and every newest SNAPSHOT event, has been sent by it or by another one. */
  lemma DoneSenderLeavesNothing(states: seq<System>, steps: seq<Step>, i: nat, r: int)
    requires Interleaved(states, steps) && i < |states| && r in states[i].senders
    requires states[i].senders[r].read <= |states[i].log|
    requires states[i].senders[r].k == |List(states[i].log, states[i].senders[r])|
    ensures var s := states[i];
            forall p | 0 <= p < s.senders[r].read && IsNewest(s.log[..s.senders[r].read], p) :: s.log[p] in s.sent
  {
    var s := states[i];
    var sender := s.senders[r];
    OkAlongRun(states, steps, i);
    assert SenderOk(s.log, s.sent, sender);
    PrefixIsLog(s.log, sender.read);
    forall p | 0 <= p < sender.read && IsNewest(s.log[..sender.read], p) ensures s.log[p] in s.sent {
      if sender.from <= p {
        var q := TodoHas(s.log[..sender.read], sender.from, p);
        assert Delivered(s.sent, List(s.log, sender)[q].seqNo - 1);
      }
      DeliveredIsSent(s.log, s.sent, p);
    }
  }

  // ----- the cursor, and one sender on its own -----

  /** The cursor is the highest acknowledgement so far. */
  lemma {:induction false} CursorIsHighestAck(states: seq<System>, steps: seq<Step>, i: nat)
    requires Interleaved(states, steps) && i < |states|
    ensures forall j | 0 <= j < i && steps[j].Ack? :: steps[j].x.seqNo <= states[i].acked
    ensures states[i].acked == 0 || exists j | 0 <= j < i :: steps[j].Ack? && steps[j].x.seqNo == states[i].acked
    ensures i > 0 ==> states[i - 1].acked <= states[i].acked
  {
    if i > 0 {
      CursorIsHighestAck(states, steps, i - 1);
      assert StepAt(states, steps, i - 1);
    }
  }

  lemma Extended(states: seq<System>, steps: seq<Step>, step: Step)
    returns (states': seq<System>, steps': seq<Step>)
    requires Interleaved(states, steps) && Enabled(states[|steps|], step)
    ensures Interleaved(states', steps') && states <= states' && |steps'| == |steps| + 1
    ensures states'[|steps'|] == Do(states[|steps|], step)
  {
    states', steps' := states + [Do(states[|steps|], step)], steps + [step];
    forall i | 0 <= i < |steps'| ensures StepAt(states', steps', i) {
      if i < |steps| {
        assert StepAt(states, steps, i);
      }
    }
  }

  /** What a sender that has read the log just now still has to send. */
  function Todo(s: System): seq<Event> {
    Compact(After(s.log, s.acked))
  }

  function AfterSends(s: System, r: int, k: nat): System
    requires k <= |Todo(s)|
  {
    s.(sent := s.sent + Todo(s)[..k], senders := s.senders[r := Sender(s.acked, |s.log|, k)])
  }

  lemma SendIsEnabled(s: System, r: int, k: nat)
    requires k < BuildablePrefix(Todo(s))
    ensures Enabled(AfterSends(s, r, k), Send(r)) && Do(AfterSends(s, r, k), Send(r)) == AfterSends(s, r, k + 1)
  {
    assert s.log[..|s.log|] == s.log;
    assert Buildable(Todo(s)[k].job);
    OneMoreSent(s.sent, Todo(s), k);
  }

  lemma {:induction false} SendsAreSteps(states: seq<System>, steps: seq<Step>, r: int, k: nat)
    returns (states': seq<System>, steps': seq<Step>)
    requires Interleaved(states, steps)
    requires var s := states[|steps|]; r !in s.cursors && r !in s.senders && k <= BuildablePrefix(Todo(s))
    ensures Interleaved(states', steps') && states <= states'
    ensures states'[|steps'|] == AfterSends(states[|steps|], r, k)
  {
    var s := states[|steps|];
    if k == 0 {
      states', steps' := Extended(states, steps, ReadCursor(r));
      states', steps' := Extended(states', steps', ReadLog(r));
      assert s.cursors[r := s.acked] - {r} == s.cursors && s.sent + [] == s.sent;
    } else {
      states', steps' := SendsAreSteps(states, steps, r, k - 1);
      SendIsEnabled(s, r, k - 1);
      states', steps' := Extended(states', steps', Send(r));
    }
  }

  /** A sender that nothing interrupts does what DeliverPending does, wherever it stops: it sends
      the first k events of the list that is still to be sent, and leaves all else alone. */
  lemma SenderIsARound(states: seq<System>, steps: seq<Step>, r: int, k: nat)
    returns (states': seq<System>, steps': seq<Step>)
    requires Interleaved(states, steps)
    requires var s := states[|steps|]; r !in s.cursors && r !in s.senders && k <= BuildablePrefix(Todo(s))
    ensures Interleaved(states', steps') && states <= states'
    ensures var s := states[|steps|];
            states'[|steps'|] == s.(sent := s.sent + Compact(After(s.log, s.acked))[..k])
  {
    var s := states[|steps|];
    states', steps' := SendsAreSteps(states, steps, r, k);
    states', steps' := Extended(states', steps', Stop(r));
    assert s.cursors - {r} == s.cursors && s.senders[r := Sender(s.acked, |s.log|, k)] - {r} == s.senders;
  }
}
