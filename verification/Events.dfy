/**
 The control plane's durable event log for one gateway (internal/cp/events): sequence
 allocation, cumulative acknowledgement, and the compaction that keeps only the newest
 SNAPSHOT event of each command.  The registry half of the gateway is here too, because
 what compaction must preserve is the state that the delivered events leave behind.
 */
module Events {

  datatype DeliveryMode = Action | Snapshot

  /** The command types of event_dto.go; any other string is an unknown command. */
  datatype Command =
    | RotateGatewayCert | RevokeGatewayCert | RevokeGateway | DrainGateway
    | RotateConnectorCert | RevokeConnectorCert | RevokeConnector | ReloadConnector
    | RevokeUserSession | CrlSync | ConnectorSync
    | Unknown(name: string)

  datatype ConnectorInfo = ConnectorInfo(id: string, status: string)

  /** The persisted command; ACTION commands carry one identifier as their target. */
  datatype Job = Job(command: Command, target: string, serials: seq<string>, connectors: seq<ConnectorInfo>)

  datatype Event = Event(seqNo: int, mode: DeliveryMode, job: Job)

  function DeliveryModeForCommand(command: Command): DeliveryMode {
    if command == CrlSync || command == ConnectorSync then Snapshot else Action
  }

  /** BuildCommand fails for any command type it does not know. */
  predicate Buildable(job: Job) {
    !job.command.Unknown?
  }

  // ----- compaction -----

  predicate SameSnapshot(x: Event, y: Event) {
    x.mode.Snapshot? && y.mode.Snapshot? && x.job.command == y.job.command
  }

  predicate Superseded(e: Event, later: seq<Event>) {
    exists x | x in later :: SameSnapshot(e, x)
  }

  function Compact(es: seq<Event>): seq<Event> {
    if es == [] then []
    else if Superseded(es[0], es[1..]) then Compact(es[1..])
    else [es[0]] + Compact(es[1..])
  }

  /** Two passes: the first records the last index of each SNAPSHOT command, the second
      drops every SNAPSHOT event that is not at its command's last index. */
  method CompactGatewayEvents(events: seq<Event>) returns (result: seq<Event>)
    ensures result == Compact(events)
  {
    if |events| <= 1 {
      return events;
    }
    var latest: map<Command, nat> := map[];
    for i := 0 to |events|
      invariant LastIndexes(events, i, latest)
    {
      if events[i].mode.Snapshot? {
        latest := latest[events[i].job.command := i];
      }
    }
    result := [];
    for i := 0 to |events|
      invariant result + Compact(events[i..]) == Compact(events)
    {
      var e := events[i];
      CompactFrom(events, i, latest);
      if !(e.mode.Snapshot? && latest[e.job.command] != i) {
        result := result + [e];
      }
    }
  }

  /** `latest` holds the last index below n of every SNAPSHOT command. */
  ghost predicate LastIndexes(events: seq<Event>, n: nat, latest: map<Command, nat>)
    requires n <= |events|
  {
    && (forall c | c in latest ::
          latest[c] < n && events[latest[c]].mode.Snapshot? && events[latest[c]].job.command == c)
    && (forall j | 0 <= j < n && events[j].mode.Snapshot? ::
          events[j].job.command in latest && j <= latest[events[j].job.command])
  }

  lemma SupersededIff(events: seq<Event>, i: nat, latest: map<Command, nat>)
    requires LastIndexes(events, |events|, latest) && i < |events|
    ensures Superseded(events[i], events[i + 1..]) <==>
            events[i].mode.Snapshot? && latest[events[i].job.command] != i
  {
    var e, later := events[i], events[i + 1..];
    if e.mode.Snapshot? && latest[e.job.command] != i {
      var n := latest[e.job.command];
      assert later[n - (i + 1)] == events[n] && SameSnapshot(e, events[n]);
      assert events[n] in later && Superseded(e, later);
    }
    if Superseded(e, later) {
      var x :| x in later && SameSnapshot(e, x);
      var k :| 0 <= k < |later| && later[k] == x;
      assert events[i + 1 + k] == x;
      assert i + 1 + k <= latest[x.job.command];
    }
  }

  lemma CompactFrom(events: seq<Event>, i: nat, latest: map<Command, nat>)
    requires LastIndexes(events, |events|, latest) && i < |events|
    ensures Compact(events[i..]) ==
            (if events[i].mode.Snapshot? && latest[events[i].job.command] != i then [] else [events[i]])
            + Compact(events[i + 1..])
  {
    SupersededIff(events, i, latest);
    assert events[i..][0] == events[i] && events[i..][1..] == events[i + 1..];
  }

  // ----- which events survive, and in which order -----

  ghost predicate Increasing(es: seq<Event>) {
    forall i, j | 0 <= i < j < |es| :: es[i].seqNo < es[j].seqNo
  }

  /** Nothing newer of the same SNAPSHOT command is in the log. */
  ghost predicate Current(e: Event, log: seq<Event>) {
    forall x | x in log :: SameSnapshot(e, x) ==> x.seqNo <= e.seqNo
  }

  lemma {:induction false} CompactMembers(es: seq<Event>, e: Event)
    requires Increasing(es)
    ensures e in Compact(es) <==> e in es && Current(e, es)
  {
    if es != [] {
      var h, t := es[0], es[1..];
      CompactMembers(t, e);
      assert es == [h] + t;
      forall x | x in t ensures h.seqNo < x.seqNo {
        var k :| 0 <= k < |t| && t[k] == x;
        assert es[k + 1] == x;
      }
      if e in t {
        assert SameSnapshot(e, h) ==> h.seqNo <= e.seqNo;
      }
    }
  }

  lemma {:induction false} CompactIncreasing(es: seq<Event>)
    requires Increasing(es)
    ensures Increasing(Compact(es))
  {
    if es != [] {
      var t := es[1..];
      CompactIncreasing(t);
      forall x | x in Compact(t) ensures es[0].seqNo < x.seqNo {
        CompactMembers(t, x);
        var k :| 0 <= k < |t| && t[k] == x;
        assert es[k + 1] == x;
      }
    }
  }

  /** What compaction returns, for a log in sequence order: in sequence order again; every
      ACTION event; exactly one event, the newest, for each SNAPSHOT command present; and
      always the last event, so that acknowledging the last one sent covers all dropped. */
  lemma CompactionKeeps(es: seq<Event>)
    requires Increasing(es)
    ensures Increasing(Compact(es))
    ensures forall e | e in es && e.mode.Action? :: e in Compact(es)
    ensures forall e | e in es && e.mode.Snapshot? ::
              exists x | x in Compact(es) :: SameSnapshot(e, x) && e.seqNo <= x.seqNo
    ensures forall x, y | x in Compact(es) && y in Compact(es) && SameSnapshot(x, y) :: x == y
    ensures es != [] ==> Compact(es) != [] && Compact(es)[|Compact(es)| - 1] == es[|es| - 1]
  {
    CompactIncreasing(es);
    CompactLast(es);
    var c := Compact(es);
    forall e | e in es && e.mode.Action? ensures e in c {
      CompactMembers(es, e);
    }
    forall e | e in es && e.mode.Snapshot?
      ensures exists x | x in c :: SameSnapshot(e, x) && e.seqNo <= x.seqNo
    {
      var x := Newest(es, e);
      CompactMembers(es, x);
    }
    forall x, y | x in c && y in c && SameSnapshot(x, y) ensures x == y {
      CompactOnePerCommand(es, x, y);
    }
  }

  lemma CompactOnePerCommand(es: seq<Event>, x: Event, y: Event)
    requires Increasing(es) && x in Compact(es) && y in Compact(es) && SameSnapshot(x, y)
    ensures x == y
  {
    CompactMembers(es, x);
    CompactMembers(es, y);
    assert SameSnapshot(y, x);
    SeqNoIdentifies(es, x, y);
  }

  lemma {:induction false} CompactLast(es: seq<Event>)
    ensures es != [] ==> Compact(es) != [] && Compact(es)[|Compact(es)| - 1] == es[|es| - 1]
  {
    if |es| > 1 {
      CompactLast(es[1..]);
    }
  }

  lemma SeqNoIdentifies(log: seq<Event>, x: Event, y: Event)
    requires Increasing(log) && x in log && y in log && x.seqNo == y.seqNo
    ensures x == y
  {
    var i :| 0 <= i < |log| && log[i] == x;
    var j :| 0 <= j < |log| && log[j] == y;
    assert i == j;
  }

  lemma {:induction false} Newest(es: seq<Event>, e: Event) returns (x: Event)
    requires Increasing(es) && e in es
    ensures x in es && Current(x, es) && e.seqNo <= x.seqNo && (x == e || SameSnapshot(e, x))
    decreases |es|
  {
    if Current(e, es) {
      x := e;
    } else {
      var n := |es| - 1;
      var front, last := es[..n], es[n];
      assert es == front + [last];
      if SameSnapshot(e, last) {
        x := last;
        forall y | y in es ensures y.seqNo <= last.seqNo {
          var k :| 0 <= k < |es| && es[k] == y;
        }
      } else {
        assert !Current(e, front);
        x := Newest(front, e);
        assert !SameSnapshot(x, last);
      }
    }
  }

  /** Compacting a list that grew after an earlier compaction gives what compacting the
      whole list gives; with nothing appended, compaction is idempotent. */
  lemma {:induction false} CompactAppend(a: seq<Event>, b: seq<Event>)
    ensures Compact(a + b) == Compact(Compact(a) + b)
    ensures Compact(Compact(a)) == Compact(a)
    decreases |a|
  {
    if a == [] {
      assert a + b == b == Compact(a) + b;
    } else {
      var h, t := a[0], a[1..];
      assert a + b == [h] + (t + b);
      CompactAppend(t, b);
      if !Superseded(h, t) {
        var c := Compact(t);
        assert Compact(a) + b == [h] + (c + b);
        forall x | x in c ensures x in t {
          CompactSubset(t, x);
        }
        assert !Superseded(h, c);
        assert Compact(a) == [h] + c;
        if x :| x in t + b && SameSnapshot(h, x) {
          assert x in b && x in c + b;
        }
      } else {
        var x :| x in t && SameSnapshot(h, x);
        assert x in t + b;
      }
    }
  }

  lemma {:induction false} CompactSubset(es: seq<Event>, e: Event)
    requires e in Compact(es)
    ensures e in es
  {
    if e != es[0] || Superseded(es[0], es[1..]) {
      CompactSubset(es[1..], e);
    }
  }

  // ----- what the gateway ends up with -----

  datatype Registers = Registers(crl: set<string>, connectors: map<string, string>)

  function StatusMap(cs: seq<ConnectorInfo>): map<string, string> {
    if cs == [] then map[]
    else StatusMap(cs[..|cs| - 1])[cs[|cs| - 1].id := cs[|cs| - 1].status]
  }

  /** The gateway's handlers replace a whole register; ACTION commands touch neither. */
  function Handle(r: Registers, e: Event): Registers {
    if e.job.command == CrlSync then r.(crl := set s | s in e.job.serials)
    else if e.job.command == ConnectorSync then r.(connectors := StatusMap(e.job.connectors))
    else r
  }

  function HandleAll(r: Registers, es: seq<Event>): Registers
    decreases es
  {
    if es == [] then r else HandleAll(Handle(r, es[0]), es[1..])
  }

  /** Every event is stored with the mode its command has (CreateEvent). */
  ghost predicate Typed(es: seq<Event>) {
    forall e | e in es :: e.mode == DeliveryModeForCommand(e.job.command)
  }

  lemma {:induction false} HandleAllAppend(r: Registers, a: seq<Event>, b: seq<Event>)
    ensures HandleAll(r, a + b) == HandleAll(HandleAll(r, a), b)
    decreases |a|
  {
    if a == [] {
      assert a + b == b;
    } else {
      assert (a + b)[1..] == a[1..] + b;
      HandleAllAppend(Handle(r, a[0]), a[1..], b);
    }
  }

  /** A register ends as the last event of its command left it, whatever else was sent. */
  ghost function LastOf(command: Command, es: seq<Event>): (i: int)
    ensures -1 <= i < |es|
    ensures i >= 0 ==> es[i].job.command == command
    ensures forall j | i < j < |es| :: es[j].job.command != command
  {
    if es == [] then -1
    else if es[|es| - 1].job.command == command then |es| - 1
    else LastOf(command, es[..|es| - 1])
  }

  ghost predicate Agree(command: Command, a: seq<Event>, b: seq<Event>) {
    var i, j := LastOf(command, a), LastOf(command, b);
    if i < 0 then j < 0 else j >= 0 && a[i].job == b[j].job
  }

  lemma {:induction false} RegistersAreLast(r: Registers, es: seq<Event>)
    ensures var i := LastOf(CrlSync, es);
            HandleAll(r, es).crl == if i < 0 then r.crl else set s | s in es[i].job.serials
    ensures var i := LastOf(ConnectorSync, es);
            HandleAll(r, es).connectors == if i < 0 then r.connectors else StatusMap(es[i].job.connectors)
    decreases |es|
  {
    if es != [] {
      var n := |es| - 1;
      assert es == es[..n] + [es[n]];
      HandleAllAppend(r, es[..n], [es[n]]);
      assert [es[n]][1..] == [];
      RegistersAreLast(r, es[..n]);
    }
  }

  /** The connectors register holds exactly the identifiers of the last CONNECTOR_SYNC, each with
      the status of its last entry there. */
  lemma ConnectorsAsListed(r: Registers, es: seq<Event>, id: string)
    requires LastOf(ConnectorSync, es) >= 0
    ensures Listed(es[LastOf(ConnectorSync, es)].job.connectors, HandleAll(r, es).connectors, id)
  {
    RegistersAreLast(r, es);
    StatusMapLists(es[LastOf(ConnectorSync, es)].job.connectors, id);
  }

  ghost predicate Listed(cs: seq<ConnectorInfo>, register: map<string, string>, id: string) {
    && (id in register <==> exists k | 0 <= k < |cs| :: cs[k].id == id)
    && (forall k | 0 <= k < |cs| && cs[k].id == id && (forall m | k < m < |cs| :: cs[m].id != id) ::
          id in register && register[id] == cs[k].status)
  }

  lemma {:induction false} StatusMapLists(cs: seq<ConnectorInfo>, id: string)
    ensures Listed(cs, StatusMap(cs), id)
    decreases |cs|
  {
    if cs != [] {
      var n := |cs| - 1;
      StatusMapLists(cs[..n], id);
      assert cs == cs[..n] + [cs[n]];
      if cs[n].id != id {
        forall k | 0 <= k < |cs| && cs[k].id == id && (forall m | k < m < |cs| :: cs[m].id != id)
          ensures id in StatusMap(cs) && StatusMap(cs)[id] == cs[k].status
        {
          assert cs[..n][k] == cs[k];
          forall m | k < m < n ensures cs[..n][m].id != id {
            assert cs[m].id != id;
          }
        }
      } else {
        assert cs[n].id == id;
      }
    }
  }

  lemma AgreementFixesRegisters(r: Registers, a: seq<Event>, b: seq<Event>)
    requires Agree(CrlSync, a, b) && Agree(ConnectorSync, a, b)
    ensures HandleAll(r, a) == HandleAll(r, b)
  {
    RegistersAreLast(r, a);
    RegistersAreLast(r, b);
  }

  /** Compaction never changes what the gateway's registers end up with. */
  lemma {:induction false} CompactionPreservesRegisters(r: Registers, es: seq<Event>)
    requires Typed(es)
    ensures HandleAll(r, Compact(es)) == HandleAll(r, es)
    decreases |es|
  {
    if es != [] {
      var h, t := es[0], es[1..];
      assert Typed(t);
      CompactionPreservesRegisters(r, t);
      CompactionPreservesRegisters(Handle(r, h), t);
      if Superseded(h, t) {
        RegistersAreLast(r, t);
        RegistersAreLast(Handle(r, h), t);
        var x :| x in t && SameSnapshot(h, x);
        assert x.job.command == h.job.command;
      }
    }
  }

  // ----- the repository and one delivery round, as the code runs them -----

  /** ListGatewayEventsAfter. */
  function After(log: seq<Event>, acked: int): (r: seq<Event>) {
    if log == [] then []
    else (if log[0].seqNo > acked then [log[0]] else []) + After(log[1..], acked)
  }

  /** The longest prefix that can be turned into commands: a round stops at the first
      event it cannot build. */
  function BuildablePrefix(es: seq<Event>): (n: nat)
    ensures n <= |es|
    ensures forall i | 0 <= i < n :: Buildable(es[i].job)
    ensures n < |es| ==> !Buildable(es[n].job)
  {
    if es == [] || !Buildable(es[0].job) then 0 else 1 + BuildablePrefix(es[1..])
  }

  class EventRepository {
    var log: seq<Event>
    var nextSeq: int
    var acked: int

    ghost predicate Valid()
      reads this
    {
      && Typed(log)
      && 1 <= nextSeq == |log| + 1
      && (forall i | 0 <= i < |log| :: log[i].seqNo == i + 1)
      && 0 <= acked <= |log|
    }

    constructor ()
      ensures Valid() && log == [] && acked == 0
    {
      log, nextSeq, acked := [], 1, 0;
    }

    /** Sequence allocation and insert happen in one transaction; `commit` says whether
        it commits.  A rolled back transaction leaves no trace. */
    method CreateEvent(job: Job, commit: bool) returns (created: bool)
      requires Valid()
      modifies this
      ensures Valid() && acked == old(acked) && created == commit
      ensures var mode := if job.command == CrlSync || job.command == ConnectorSync then Snapshot else Action;
              log == if commit then old(log) + [Event(|old(log)| + 1, mode, job)] else old(log)
    {
      var s := nextSeq;
      var e := Event(s, DeliveryModeForCommand(job.command), job);
      if commit {
        nextSeq := s + 1;
        log := log + [e];
      }
      created := commit;
    }

    /** handleCommandAck with AckGatewayEvents: a negative sequence or one above the
        newest event is refused, and the stored cursor never moves back. */
    method Ack(s: int) returns (ok: bool)
      requires Valid()
      modifies this`acked
      ensures Valid() && ok == (0 <= s <= |log|)
      ensures acked == if ok && s > old(acked) then s else old(acked)
    {
      if s < 0 || s > (if log == [] then 0 else log[|log| - 1].seqNo) {
        return false;
      }
      if s > acked {
        acked := s;
      }
      ok := true;
    }
  }

  /** A connection that accepts `credit` more messages before it fails. */
  class GatewayConn {
    var sent: seq<Event>
    var credit: nat

    method Send(e: Event) returns (ok: bool)
      modifies this
      ensures ok == (old(credit) > 0)
      ensures sent == (if ok then old(sent) + [e] else old(sent))
      ensures credit == (if ok then old(credit) - 1 else old(credit))
    {
      ok := credit > 0;
      if ok {
        sent, credit := sent + [e], credit - 1;
      }
    }
  }

  /** One round: everything after the cursor, compacted, sent in order until the first
      event that cannot be built or sent. */
  method DeliverPending(repo: EventRepository, conn: GatewayConn) returns (ok: bool)
    modifies conn
    ensures var todo := Compact(After(repo.log, repo.acked));
            var n := BuildablePrefix(todo);
            var k := if old(conn.credit) < n then old(conn.credit) else n;
            conn.sent == old(conn.sent) + todo[..k] && (ok <==> k == |todo|)
  {
    var events := After(repo.log, repo.acked);
    if |events| == 0 {
      return true;
    }
    events := CompactGatewayEvents(events);
    ok := SendInOrder(events, conn);
  }

  /** The send loop of a round. */
  method SendInOrder(events: seq<Event>, conn: GatewayConn) returns (ok: bool)
    modifies conn
    ensures var n := BuildablePrefix(events);
            var k := if old(conn.credit) < n then old(conn.credit) else n;
            conn.sent == old(conn.sent) + events[..k] && (ok <==> k == |events|)
  {
    for i := 0 to |events|
      invariant i <= BuildablePrefix(events) && i <= old(conn.credit)
      invariant conn.sent == old(conn.sent) + events[..i] && conn.credit == old(conn.credit) - i
    {
      if !Buildable(events[i].job) {
        return false;
      }
      PrefixReaches(events, i);
      var sentOne := conn.Send(events[i]);
      if !sentOne {
        return false;
      }
      assert events[..i + 1] == events[..i] + [events[i]];
    }
    ok := true;
  }

  lemma PrefixReaches(es: seq<Event>, i: nat)
    requires i < |es| && i <= BuildablePrefix(es) && Buildable(es[i].job)
    ensures i < BuildablePrefix(es)
  {
  }
}
