/**
 The two-way relay between the streams of a tunnel (Relay in pkg/flow/flow.go) as a step
 machine: one goroutine copies each way, a third closes both streams once the context is
 cancelled, and the caller waits for both copies.  Reads wait for the peer that sends and
 writes for the peer that takes; what the peers do are steps of their own.
 */
module Relay {
  import opened Wrappers
  import opened Bytes

  /** An error is either one that counts as end of stream (errors.Is with io.EOF) or a real
      one.  io.Copy itself turns a plain end of stream into no error. */
  datatype Error = EofLike | Real(code: nat)

  datatype Phase = Copying | CopyEnded | ErrorNoted | HalfClosed | Done

  /** One direction.  Of its source: what the peer will still send, what has arrived, whether
      the peer has ended its stream, and a failure reads meet.  Of its destination: how many
      bytes it takes before it blocks, and a failure writes meet.  Between them the chunk that
      io.Copy holds and what it has passed on; then the count and the error its goroutine
      stored, and whether the write side of the destination was closed. */
  datatype Direction = Direction(
    phase: Phase,
    coming: bytes, arrived: bytes, ended: bool, readError: Option<Error>,
    room: nat, writeError: Option<Error>,
    hand: bytes, passed: bytes,
    count: nat, err: Option<Error>, writeClosed: bool)

  datatype Way = AToB | BToA

  /** `noted` is the history of the real errors given to setErr, in order; `err` and the two
      counts make up the result. */
  datatype State = State(ab: Direction, ba: Direction, noted: seq<Error>, err: Option<Error>,
                         parentCancelled: bool, cancelled: bool, closedA: bool, closedB: bool, returned: bool)

  datatype Step =
    // the peers and the caller
    | PeerSends(way: Way, size: nat)
    | PeerEnds(way: Way)
    | PeerBreaks(way: Way, err: Error)
    | PeerTakes(way: Way, size: nat)
    | PeerRefuses(way: Way, err: Error)
    | CancelParent
    // the copying goroutines
    | ReadChunk(way: Way, size: nat)
    | WriteSome(way: Way, size: nat)
    | ReadEof(way: Way)
    | ReadFails(way: Way, err: Error)
    | WriteFails(way: Way, err: Error)
    | NoteError(way: Way)
    | HalfClose(way: Way)
    | WgDone(way: Way)
    // the closing goroutine and the caller's return
    | CloseA
    | CloseB
    | Return

  function Fresh(input: bytes): Direction {
    Direction(Copying, input, [], false, None, 0, None, [], [], 0, None, false)
  }

  /** At the start, with everything each peer will send. */
  function Start(inA: bytes, inB: bytes): State {
    State(Fresh(inA), Fresh(inB), [], None, false, false, false, false, false)
  }

  function Dir(s: State, w: Way): Direction {
    if w == AToB then s.ab else s.ba
  }

  function With(s: State, w: Way, d: Direction): State {
    if w == AToB then s.(ab := d) else s.(ba := d)
  }

  predicate SourceClosed(s: State, w: Way) {
    if w == AToB then s.closedA else s.closedB
  }

  predicate DestinationClosed(s: State, w: Way) {
    if w == AToB then s.closedB else s.closedA
  }

  predicate Idle(d: Direction) {
    d.phase == Copying && d.hand == []
  }

  /** A direction can take a step; `source` and `dest` say which of its streams were closed
      under it.  A closed stream fails its reads and writes, or reports the end. */
  predicate MoveEnabled(d: Direction, st: Step, source: bool, dest: bool) {
    match st
    case PeerSends(_, size) => 0 < size <= |d.coming|
    case PeerEnds(_) => d.coming == [] && !d.ended
    case PeerBreaks(_, _) => d.readError == None
    case PeerTakes(_, size) => size > 0
    case PeerRefuses(_, _) => d.writeError == None
    case ReadChunk(_, size) => Idle(d) && 0 < size <= |d.arrived|
    case WriteSome(_, size) => d.phase == Copying && 0 < size <= |d.hand| && size <= d.room
    case ReadEof(_) => Idle(d) && ((d.arrived == [] && d.ended) || source)
    case ReadFails(_, e) => Idle(d) && (d.readError == Some(e) || source)
    case WriteFails(_, e) => d.phase == Copying && d.hand != [] && (d.writeError == Some(e) || dest)
    case NoteError(_) => d.phase == CopyEnded
    case HalfClose(_) => d.phase == ErrorNoted
    case WgDone(_) => d.phase == HalfClosed
    case _ => false
  }

  predicate IsControl(st: Step) {
    st.CancelParent? || st.CloseA? || st.CloseB? || st.Return?
  }

  /** Steps the relay does not make itself. */
  predicate IsPeer(st: Step) {
    st.PeerSends? || st.PeerEnds? || st.PeerBreaks? || st.PeerTakes? || st.PeerRefuses? || st.CancelParent?
  }

  predicate Enabled(s: State, st: Step) {
    match st
    case CancelParent => !s.parentCancelled
    case CloseA => s.cancelled && !s.closedA
    case CloseB => s.cancelled && s.closedA && !s.closedB
    case Return => s.ab.phase == Done && s.ba.phase == Done && !s.returned
    case _ => MoveEnabled(Dir(s, st.way), st, SourceClosed(s, st.way), DestinationClosed(s, st.way))
  }

  predicate IsReal(e: Option<Error>) {
    e.Some? && e.value.Real?
  }

  /** setErr: a real error is recorded once, and cancels. */
  function SetErr(s: State, e: Option<Error>): State {
    if !IsReal(e) then s
    else
      var s' := s.(noted := s.noted + [e.value]);
      if s.err == None then s'.(err := e, cancelled := true) else s'
  }

  /** The second look at the errors after both copies ended. */
  function Fallback(s: State): Option<Error> {
    if s.err != None then s.err
    else if IsReal(s.ab.err) then s.ab.err
    else if IsReal(s.ba.err) then s.ba.err
    else None
  }

  /** io.Copy returns: the goroutine stores the count and the error. */
  function EndCopy(d: Direction, e: Option<Error>): Direction {
    d.(phase := CopyEnded, count := |d.passed|, err := e)
  }

  /** What a step does to the direction that takes it. */
  function Move(d: Direction, st: Step): Direction
    requires st.PeerSends? ==> st.size <= |d.coming|
    requires st.ReadChunk? ==> st.size <= |d.arrived|
    requires st.WriteSome? ==> st.size <= |d.hand| && st.size <= d.room
  {
    match st
    case PeerSends(_, size) => d.(arrived := d.arrived + d.coming[..size], coming := d.coming[size..])
    case PeerEnds(_) => d.(ended := true)
    case PeerBreaks(_, e) => d.(readError := Some(e))
    case PeerTakes(_, size) => d.(room := d.room + size)
    case PeerRefuses(_, e) => d.(writeError := Some(e))
    case ReadChunk(_, size) => d.(hand := d.arrived[..size], arrived := d.arrived[size..])
    case WriteSome(_, size) => d.(passed := d.passed + d.hand[..size], hand := d.hand[size..], room := d.room - size)
    case ReadEof(_) => EndCopy(d, None)
    case ReadFails(_, e) => EndCopy(d, Some(e))
    case WriteFails(_, e) => EndCopy(d, Some(e))
    case NoteError(_) => d.(phase := ErrorNoted)
    case HalfClose(_) => d.(phase := HalfClosed, writeClosed := true)
    case WgDone(_) => d.(phase := Done)
    case _ => d
  }

  function Do(s: State, st: Step): State
    requires Enabled(s, st)
  {
    match st
    case CancelParent => s.(parentCancelled := true, cancelled := true)
    case CloseA => s.(closedA := true)
    case CloseB => s.(closedB := true)
    case Return => s.(returned := true, cancelled := true, err := Fallback(s))
    case NoteError(w) => With(SetErr(s, Dir(s, w).err), w, Move(Dir(s, w), st))
    case _ => With(s, st.way, Move(Dir(s, st.way), st))
  }

  predicate Run(states: seq<State>, steps: seq<Step>, inA: bytes, inB: bytes) {
    |states| == |steps| + 1 && states[0] == Start(inA, inB) &&
    forall i | 0 <= i < |steps| :: Enabled(states[i], steps[i]) && states[i + 1] == Do(states[i], steps[i])
  }

  // ----- what every step keeps -----

  /** Everything a direction has had and will have, in order. */
  function Flow(d: Direction): bytes {
    d.passed + (d.hand + (d.arrived + d.coming))
  }

  /** Bytes pass in order; `disturbed` says that the streams may have been closed early. */
  predicate DirInv(d: Direction, input: bytes, disturbed: bool) {
    && (d.phase == Copying ==> Flow(d) == input && d.err == None)
    && (d.ended ==> d.coming == [])
    && d.passed <= input
    && (d.phase != Copying ==> d.count == |d.passed|)
    && (d.phase != Copying && d.err == None ==> d.passed == input || disturbed)
    && (d.writeClosed <==> d.phase in {HalfClosed, Done})
  }

  /** A real error that a goroutine has passed on is in the history. */
  predicate Noted(d: Direction, noted: seq<Error>) {
    d.phase in {ErrorNoted, HalfClosed, Done} && IsReal(d.err) ==> noted != []
  }

  predicate NotedByOne(ab: Direction, ba: Direction, noted: seq<Error>) {
    forall i | 0 <= i < |noted| :: noted[i].Real? && (ab.err == Some(noted[i]) || ba.err == Some(noted[i]))
  }

  /** The history holds real errors, each met by one of the directions. */
  predicate NotedInv(s: State) {
    && Noted(s.ab, s.noted) && Noted(s.ba, s.noted)
    && NotedByOne(s.ab, s.ba, s.noted)
    && s.err == if s.noted == [] then None else Some(s.noted[0])
  }

  predicate ControlInv(s: State) {
    && (s.cancelled <==> s.parentCancelled || s.noted != [] || s.returned)
    && (s.closedA || s.closedB ==> s.cancelled) && (s.closedB ==> s.closedA)
    && (s.returned ==> s.ab.phase == Done && s.ba.phase == Done)
  }

  predicate Disturbed(s: State) {
    s.parentCancelled || s.noted != []
  }

  predicate Inv(s: State, inA: bytes, inB: bytes) {
    DirInv(s.ab, inA, Disturbed(s)) && DirInv(s.ba, inB, Disturbed(s)) && NotedInv(s) && ControlInv(s)
  }

  lemma Arrival(arrived: bytes, coming: bytes, size: nat)
    requires size <= |coming|
    ensures (arrived + coming[..size]) + coming[size..] == arrived + coming
  {
    assert coming[..size] + coming[size..] == coming;
  }

  lemma Taking(arrived: bytes, coming: bytes, size: nat)
    requires size <= |arrived|
    ensures arrived[..size] + (arrived[size..] + coming) == [] + (arrived + coming)
  {
    assert arrived[..size] + arrived[size..] == arrived;
  }

  lemma Passing(passed: bytes, hand: bytes, rest: bytes, size: nat)
    requires size <= |hand|
    ensures (passed + hand[..size]) + (hand[size..] + rest) == passed + (hand + rest)
  {
    assert hand[..size] + hand[size..] == hand;
  }

  lemma FlowKeeps(d: Direction, st: Step, source: bool, dest: bool)
    requires MoveEnabled(d, st, source, dest)
    ensures Move(d, st).phase == Copying ==> Flow(Move(d, st)) == Flow(d)
  {
    match st
    case PeerSends(_, size) => Arrival(d.arrived, d.coming, size);
    case ReadChunk(_, size) => Taking(d.arrived, d.coming, size);
    case WriteSome(_, size) => Passing(d.passed, d.hand, d.arrived + d.coming, size);
    case _ =>
  }

  lemma MoveKeeps(d: Direction, st: Step, input: bytes, source: bool, dest: bool, disturbed: bool)
    requires DirInv(d, input, disturbed) && MoveEnabled(d, st, source, dest) && (source ==> disturbed)
    ensures DirInv(Move(d, st), input, disturbed)
  {
    FlowKeeps(d, st, source, dest);
    if st.ReadEof? && !source {
      assert Flow(d) == d.passed;
    }
  }

  lemma MoveKeepsError(d: Direction, st: Step, source: bool, dest: bool)
    requires MoveEnabled(d, st, source, dest) && (d.phase == Copying ==> d.err == None)
    ensures d.err != None ==> Move(d, st).err == d.err
    ensures !st.NoteError? && Move(d, st).phase in {ErrorNoted, HalfClosed, Done} ==>
              d.phase in {ErrorNoted, HalfClosed, Done} && Move(d, st).err == d.err
    ensures d.phase == Done ==> Move(d, st).phase == Done
  {
  }

  lemma ErrorsStayNoted(ab: Direction, ba: Direction, ab': Direction, ba': Direction, noted: seq<Error>)
    requires NotedByOne(ab, ba, noted)
    requires (ab.err != None ==> ab'.err == ab.err) && (ba.err != None ==> ba'.err == ba.err)
    ensures NotedByOne(ab', ba', noted)
  {
  }

  lemma SetErrKeepsNoted(s: State, w: Way)
    requires NotedInv(s) && ControlInv(s) && Enabled(s, NoteError(w))
    ensures NotedInv(Do(s, NoteError(w))) && ControlInv(Do(s, NoteError(w)))
  {
    var t := Do(s, NoteError(w));
    ErrorsStayNoted(s.ab, s.ba, t.ab, t.ba, s.noted);
  }

  lemma MoveKeepsNoted(s: State, w: Way, d: Direction)
    requires NotedInv(s) && ControlInv(s) && (Dir(s, w).phase == Done ==> d.phase == Done)
    requires Dir(s, w).err != None ==> d.err == Dir(s, w).err
    requires d.phase in {ErrorNoted, HalfClosed, Done} ==>
               Dir(s, w).phase in {ErrorNoted, HalfClosed, Done} && d.err == Dir(s, w).err
    ensures NotedInv(With(s, w, d)) && ControlInv(With(s, w, d))
  {
    var t := With(s, w, d);
    ErrorsStayNoted(s.ab, s.ba, t.ab, t.ba, s.noted);
  }

  lemma ControlKeepsNoted(s: State, st: Step)
    requires Enabled(s, st) && IsControl(st) && NotedInv(s) && ControlInv(s)
    ensures NotedInv(Do(s, st)) && ControlInv(Do(s, st))
  {
    if st.Return? {
      FallbackIsIdle(s);
    }
    assert Do(s, st).noted == s.noted && Do(s, st).ab == s.ab && Do(s, st).ba == s.ba;
  }

  /** A step of one direction that records no error changes that direction only. */
  lemma DoIsMove(s: State, st: Step)
    requires Enabled(s, st) && !IsControl(st) && (st.NoteError? ==> !IsReal(Dir(s, st.way).err))
    ensures Do(s, st) == With(s, st.way, Move(Dir(s, st.way), st))
  {
  }

  lemma StaysDisturbed(s: State, st: Step)
    requires Enabled(s, st) && Disturbed(s)
    ensures Disturbed(Do(s, st))
  {
    if st.NoteError? {
      NoteStaysDisturbed(s, st.way);
    } else if !IsControl(st) {
      DoIsMove(s, st);
    }
  }

  lemma NoteStaysDisturbed(s: State, w: Way)
    requires Enabled(s, NoteError(w)) && Disturbed(s)
    ensures Disturbed(Do(s, NoteError(w)))
  {
    DoNotes(s, w);
    var u := SetErr(s, Dir(s, w).err);
    assert Disturbed(u);
    assert With(u, w, Move(Dir(s, w), NoteError(w))).noted == u.noted;
  }

  lemma StepKeepsNoted(s: State, st: Step)
    requires Enabled(s, st) && NotedInv(s) && ControlInv(s)
    requires s.ab.phase == Copying ==> s.ab.err == None
    requires s.ba.phase == Copying ==> s.ba.err == None
    ensures NotedInv(Do(s, st)) && ControlInv(Do(s, st))
  {
    if IsControl(st) {
      ControlKeepsNoted(s, st);
    } else if st.NoteError? {
      SetErrKeepsNoted(s, st.way);
    } else {
      var d := Dir(s, st.way);
      MoveKeepsError(d, st, SourceClosed(s, st.way), DestinationClosed(s, st.way));
      MoveKeepsNoted(s, st.way, Move(d, st));
      DoIsMove(s, st);
    }
  }

  /** Once both goroutines are done, the second look finds nothing that is not recorded. */
  lemma FallbackIsIdle(s: State)
    requires NotedInv(s) && s.ab.phase == Done && s.ba.phase == Done
    ensures Fallback(s) == s.err
  {
  }

  lemma SetErrLeaves(s: State, e: Option<Error>)
    ensures var t := SetErr(s, e);
            && t.ab == s.ab && t.ba == s.ba && t.parentCancelled == s.parentCancelled && t.returned == s.returned
            && t.closedA == s.closedA && t.closedB == s.closedB
  {
  }

  lemma WithLeaves(s: State, w: Way, d: Direction)
    ensures var t := With(s, w, d);
            && Dir(t, w) == d && (w == AToB ==> t.ba == s.ba) && (w == BToA ==> t.ab == s.ab)
            && t.parentCancelled == s.parentCancelled && t.returned == s.returned
            && t.closedA == s.closedA && t.closedB == s.closedB
  {
  }

  lemma DoNotes(s: State, w: Way)
    requires Enabled(s, NoteError(w))
    ensures Do(s, NoteError(w)) == With(SetErr(s, Dir(s, w).err), w, Move(Dir(s, w), NoteError(w)))
  {
  }

  /** What a step of one direction leaves alone. */
  lemma DoMoves(s: State, st: Step)
    requires Enabled(s, st) && !IsControl(st)
    ensures Dir(Do(s, st), st.way) == Move(Dir(s, st.way), st)
    ensures st.way == AToB ==> Do(s, st).ba == s.ba
    ensures st.way == BToA ==> Do(s, st).ab == s.ab
    ensures Do(s, st).parentCancelled == s.parentCancelled && Do(s, st).returned == s.returned
    ensures Do(s, st).closedA == s.closedA && Do(s, st).closedB == s.closedB
  {
    var d := Move(Dir(s, st.way), st);
    if st.NoteError? {
      DoNotes(s, st.way);
      SetErrLeaves(s, Dir(s, st.way).err);
      WithLeaves(SetErr(s, Dir(s, st.way).err), st.way, d);
    } else {
      DoIsMove(s, st);
      WithLeaves(s, st.way, d);
    }
  }

  lemma DirInvHolds(d: Direction, input: bytes, before: bool, after: bool)
    requires DirInv(d, input, before) && (before ==> after)
    ensures DirInv(d, input, after)
  {
  }

  lemma ControlKeepsDirections(s: State, st: Step)
    requires Enabled(s, st) && IsControl(st)
    ensures Do(s, st).ab == s.ab && Do(s, st).ba == s.ba
  {
  }

  lemma StepKeepsDirections(s: State, st: Step, inA: bytes, inB: bytes)
    requires Inv(s, inA, inB) && Enabled(s, st)
    ensures DirInv(Do(s, st).ab, inA, Disturbed(s)) && DirInv(Do(s, st).ba, inB, Disturbed(s))
  {
    if IsControl(st) {
      ControlKeepsDirections(s, st);
    } else {
      DoMoves(s, st);
      var d := Dir(s, st.way);
      // once Relay has returned only the peers go on
      var source := SourceClosed(s, st.way) && !s.returned;
      var input := if st.way == AToB then inA else inB;
      MoveKeeps(d, st, input, source, DestinationClosed(s, st.way), Disturbed(s));
    }
  }

  lemma StepKeeps(s: State, st: Step, inA: bytes, inB: bytes)
    requires Inv(s, inA, inB) && Enabled(s, st)
    ensures Inv(Do(s, st), inA, inB)
  {
    var t := Do(s, st);
    StepKeepsNoted(s, st);
    StepKeepsDirections(s, st, inA, inB);
    if Disturbed(s) {
      StaysDisturbed(s, st);
    }
    DirInvHolds(t.ab, inA, Disturbed(s), Disturbed(t));
    DirInvHolds(t.ba, inB, Disturbed(s), Disturbed(t));
  }

  lemma {:induction false} InvHolds(states: seq<State>, steps: seq<Step>, inA: bytes, inB: bytes, i: nat)
    requires Run(states, steps, inA, inB) && i < |states|
    ensures Inv(states[i], inA, inB)
    decreases i
  {
    if i > 0 {
      InvHolds(states, steps, inA, inB, i - 1);
      assert Enabled(states[i - 1], steps[i - 1]) && states[i] == Do(states[i - 1], steps[i - 1]);
      StepKeeps(states[i - 1], steps[i - 1], inA, inB);
    }
  }

  // ----- main results -----

  /** At every moment what has come out of one stream is a prefix of what went into the other,
      and when Relay has returned both directions have ended, both write sides are closed and
      the counts are exact. */
  lemma ReturnsOnlyWhenBothEnded(states: seq<State>, steps: seq<Step>, inA: bytes, inB: bytes, i: nat)
    requires Run(states, steps, inA, inB) && i < |states|
    ensures states[i].ab.passed <= inA && states[i].ba.passed <= inB
    ensures states[i].returned ==>
              && states[i].ab.phase == Done && states[i].ab.writeClosed && states[i].ab.count == |states[i].ab.passed|
              && states[i].ba.phase == Done && states[i].ba.writeClosed && states[i].ba.count == |states[i].ba.passed|
  {
    InvHolds(states, steps, inA, inB, i);
  }

  /** The error Relay reports is the first real one given to setErr, by the direction that met
      it; it reports none exactly when no direction ended in a real error. */
  lemma FirstErrorWins(states: seq<State>, steps: seq<Step>, inA: bytes, inB: bytes, i: nat)
    requires Run(states, steps, inA, inB) && i < |states| && states[i].returned
    ensures states[i].err == if states[i].noted == [] then None else Some(states[i].noted[0])
    ensures states[i].err == None <==> !IsReal(states[i].ab.err) && !IsReal(states[i].ba.err)
    ensures states[i].err != None ==> states[i].err == states[i].ab.err || states[i].err == states[i].ba.err
  {
    InvHolds(states, steps, inA, inB, i);
  }

  /** The second look at the errors after the wait never changes the result. */
  lemma FallbackNeverMatters(states: seq<State>, steps: seq<Step>, inA: bytes, inB: bytes, i: nat)
    requires Run(states, steps, inA, inB) && i < |steps| && steps[i].Return?
    ensures states[i + 1].err == states[i].err
  {
    InvHolds(states, steps, inA, inB, i);
    FallbackIsIdle(states[i]);
    assert Enabled(states[i], steps[i]) && states[i + 1] == Do(states[i], steps[i]);
  }

  /** No error and no cancellation from outside: each direction passed on everything, unless
      its stream failed with an error that counts as end of stream. */
  lemma CleanReportMeansDelivered(states: seq<State>, steps: seq<Step>, inA: bytes, inB: bytes, i: nat)
    requires Run(states, steps, inA, inB) && i < |states| && states[i].returned
    requires states[i].err == None && !states[i].parentCancelled
    ensures states[i].ab.passed == inA || states[i].ab.err == Some(EofLike)
    ensures states[i].ba.passed == inB || states[i].ba.err == Some(EofLike)
  {
    InvHolds(states, steps, inA, inB, i);
  }

  // ----- why a copy ended -----

  /** Of a direction that has ended its copy: without an error it has passed on everything, unless
      its source was closed; with nothing in hand its error is what the source failed with, unless
      the source was closed; with bytes in hand, what the destination failed with, unless that was
      closed. */
  predicate EndExplained(d: Direction, input: bytes, source: bool, dest: bool) {
    d.phase != Copying ==>
      if d.err == None then d.passed == input || source
      else if d.hand == [] then d.readError == d.err || source
      else d.writeError == d.err || dest
  }

  ghost predicate EndsExplained(s: State, inA: bytes, inB: bytes) {
    EndExplained(s.ab, inA, s.closedA, s.closedB) && EndExplained(s.ba, inB, s.closedB, s.closedA)
  }

  lemma MoveKeepsEnd(d: Direction, st: Step, input: bytes, source: bool, dest: bool)
    requires MoveEnabled(d, st, source, dest) && EndExplained(d, input, source, dest)
    requires d.phase == Copying ==> Flow(d) == input && (d.ended ==> d.coming == [])
    ensures EndExplained(Move(d, st), input, source, dest)
  {
    if st.ReadEof? && !source {
      assert Flow(d) == d.passed;
    }
  }

  lemma StepKeepsEnds(s: State, st: Step, inA: bytes, inB: bytes)
    requires Inv(s, inA, inB) && Enabled(s, st) && EndsExplained(s, inA, inB)
    ensures EndsExplained(Do(s, st), inA, inB)
  {
    if IsControl(st) {
      ControlKeepsDirections(s, st);
    } else {
      DoMoves(s, st);
      if st.way == AToB {
        MoveKeepsEnd(s.ab, st, inA, s.closedA, s.closedB);
      } else {
        MoveKeepsEnd(s.ba, st, inB, s.closedB, s.closedA);
      }
    }
  }

  /** Closing a stream cuts off what reads from it and what writes to it, and nothing else does:
      in every run each direction that has ended has an explanation by its own streams. */
  lemma {:induction false} EveryEndIsExplained(states: seq<State>, steps: seq<Step>, inA: bytes, inB: bytes, i: nat)
    requires Run(states, steps, inA, inB) && i < |states|
    ensures EndsExplained(states[i], inA, inB)
    decreases i
  {
    if i > 0 {
      EveryEndIsExplained(states, steps, inA, inB, i - 1);
      EndsStayExplained(states, steps, inA, inB, i - 1);
    }
  }

  lemma EndsStayExplained(states: seq<State>, steps: seq<Step>, inA: bytes, inB: bytes, i: nat)
    requires Run(states, steps, inA, inB) && i < |steps| && EndsExplained(states[i], inA, inB)
    ensures EndsExplained(states[i + 1], inA, inB)
  {
    InvHolds(states, steps, inA, inB, i);
    StepKeepsEnds(states[i], steps[i], inA, inB);
  }

  /** One step more. */
  lemma Extended(states: seq<State>, steps: seq<Step>, inA: bytes, inB: bytes, st: Step, t: State)
    returns (states': seq<State>, steps': seq<Step>)
    requires Run(states, steps, inA, inB) && Enabled(states[|steps|], st) && t == Do(states[|steps|], st)
    ensures Run(states', steps', inA, inB) && states'[|steps'|] == t
  {
    states', steps' := states + [t], steps + [st];
  }

  lemma Replaced(s: State, w: Way, d: Direction, d': Direction)
    ensures var t := With(s, w, d);
            && Dir(t, w) == d && With(t, w, d') == With(s, w, d')
            && SourceClosed(t, w) == SourceClosed(s, w) && DestinationClosed(t, w) == DestinationClosed(s, w)
  {
  }

  lemma MoveFrom(s: State, d: Direction, st: Step, d': Direction)
    requires !IsControl(st) && (st.NoteError? ==> !IsReal(d.err))
    requires MoveEnabled(d, st, SourceClosed(s, st.way), DestinationClosed(s, st.way)) && d' == Move(d, st)
    ensures var t := With(s, st.way, d); Enabled(t, st) && Do(t, st) == With(s, st.way, d')
  {
    Replaced(s, st.way, d, d');
    DoIsMove(With(s, st.way, d), st);
  }

  lemma MoveExtended(states: seq<State>, steps: seq<Step>, inA: bytes, inB: bytes,
                     s: State, d: Direction, st: Step, d': Direction)
    returns (states': seq<State>, steps': seq<Step>)
    requires !IsControl(st) && Run(states, steps, inA, inB) && states[|steps|] == With(s, st.way, d)
    requires st.NoteError? ==> !IsReal(d.err)
    requires MoveEnabled(d, st, SourceClosed(s, st.way), DestinationClosed(s, st.way)) && d' == Move(d, st)
    ensures Run(states', steps', inA, inB) && states'[|steps'|] == With(s, st.way, d')
  {
    MoveFrom(s, d, st, d');
    states', steps' := Extended(states, steps, inA, inB, st, With(s, st.way, d'));
  }

  lemma EndCopyExtended(states: seq<State>, steps: seq<Step>, inA: bytes, inB: bytes, s: State, d: Direction, w: Way)
    returns (states': seq<State>, steps': seq<Step>)
    requires Run(states, steps, inA, inB) && states[|steps|] == With(s, w, d)
    requires d.phase == CopyEnded && !IsReal(d.err)
    ensures Run(states', steps', inA, inB)
    ensures states'[|steps'|] == With(s, w, d.(phase := Done, writeClosed := true))
  {
    var d1 := d.(phase := ErrorNoted);
    var d2 := d1.(phase := HalfClosed, writeClosed := true);
    states', steps' := MoveExtended(states, steps, inA, inB, s, d, NoteError(w), d1);
    states', steps' := MoveExtended(states', steps', inA, inB, s, d1, HalfClose(w), d2);
    states', steps' := MoveExtended(states', steps', inA, inB, s, d2, WgDone(w), d2.(phase := Done));
  }

  /** A direction that has passed on n bytes more, with nothing in hand. */
  function Copied(d: Direction, n: nat): Direction
    requires n <= |d.coming|
  {
    d.(passed := d.passed + d.coming[..n], coming := d.coming[n..])
  }

  predicate AtRest(d: Direction) {
    d.phase == Copying && d.hand == [] && d.arrived == [] && d.room == 0 && d.readError == None && !d.ended
  }

  /** The peer sends n bytes and the relay reads them. */
  lemma FetchSome(states: seq<State>, steps: seq<Step>, inA: bytes, inB: bytes, w: Way, n: nat)
    returns (states': seq<State>, steps': seq<Step>)
    requires Run(states, steps, inA, inB) && AtRest(Dir(states[|steps|], w))
    requires 0 < n <= |Dir(states[|steps|], w).coming|
    ensures Run(states', steps', inA, inB)
    ensures states'[|steps'|] == With(states[|steps|], w, Fetched(Dir(states[|steps|], w), n))
  {
    var s, d := states[|steps|], Dir(states[|steps|], w);
    var d1 := d.(coming := d.coming[n..], arrived := d.coming[..n]);
    assert s == With(s, w, d) && [] + d.coming[..n] == d.coming[..n] && d.coming[..n][..n] == d.coming[..n];
    assert d.coming[..n][n..] == [];
    states', steps' := MoveExtended(states, steps, inA, inB, s, d, PeerSends(w, n), d1);
    states', steps' := MoveExtended(states', steps', inA, inB, s, d1, ReadChunk(w, n), Fetched(d, n));
  }

  ghost function Fetched(d: Direction, n: nat): Direction
    requires n <= |d.coming|
  {
    d.(coming := d.coming[n..], hand := d.coming[..n])
  }

  /** The peers send and take n bytes. */
  lemma CopySome(states: seq<State>, steps: seq<Step>, inA: bytes, inB: bytes, w: Way, n: nat)
    returns (states': seq<State>, steps': seq<Step>)
    requires Run(states, steps, inA, inB) && AtRest(Dir(states[|steps|], w)) && n <= |Dir(states[|steps|], w).coming|
    ensures Run(states', steps', inA, inB)
    ensures states'[|steps'|] == With(states[|steps|], w, Copied(Dir(states[|steps|], w), n))
  {
    var s, d := states[|steps|], Dir(states[|steps|], w);
    if n == 0 {
      states', steps' := states, steps;
      assert Copied(d, 0) == d;
    } else {
      var d2 := Fetched(d, n);
      states', steps' := FetchSome(states, steps, inA, inB, w, n);
      states', steps' := MoveExtended(states', steps', inA, inB, s, d2, PeerTakes(w, n), d2.(room := n));
      assert d2.hand[..n] == d2.hand && d2.hand[n..] == [];
      states', steps' := MoveExtended(states', steps', inA, inB, s, d2.(room := n), WriteSome(w, n), Copied(d, n));
    }
  }

  /** The copy of a direction at rest ends: with an error that counts as end of stream, or without
      one, if its source has ended or was closed. */
  lemma EndCopySome(states: seq<State>, steps: seq<Step>, inA: bytes, inB: bytes, w: Way, eof: bool)
    returns (states': seq<State>, steps': seq<Step>, d: Direction)
    requires Run(states, steps, inA, inB) && AtRest(Dir(states[|steps|], w))
    requires eof || SourceClosed(states[|steps|], w) || Dir(states[|steps|], w).coming == []
    ensures Run(states', steps', inA, inB) && states'[|steps'|] == With(states[|steps|], w, d)
    ensures d.phase == CopyEnded && d.passed == Dir(states[|steps|], w).passed
    ensures d.err == if eof then Some(EofLike) else None
  {
    var s, d0 := states[|steps|], Dir(states[|steps|], w);
    assert s == With(s, w, d0);
    if eof {
      var d1 := d0.(readError := Some(EofLike));
      states', steps' := MoveExtended(states, steps, inA, inB, s, d0, PeerBreaks(w, EofLike), d1);
      d := EndCopy(d1, Some(EofLike));
      states', steps' := MoveExtended(states', steps', inA, inB, s, d1, ReadFails(w, EofLike), d);
    } else if SourceClosed(s, w) {
      d := EndCopy(d0, None);
      states', steps' := MoveExtended(states, steps, inA, inB, s, d0, ReadEof(w), d);
    } else {
      var d1 := d0.(ended := true);
      states', steps' := MoveExtended(states, steps, inA, inB, s, d0, PeerEnds(w), d1);
      d := EndCopy(d1, None);
      states', steps' := MoveExtended(states', steps', inA, inB, s, d1, ReadEof(w), d);
    }
  }

  /** A direction at rest runs to its end. */
  lemma EndDirection(states: seq<State>, steps: seq<Step>, inA: bytes, inB: bytes, w: Way, eof: bool)
    returns (states': seq<State>, steps': seq<Step>, d: Direction)
    requires Run(states, steps, inA, inB) && AtRest(Dir(states[|steps|], w))
    requires eof || SourceClosed(states[|steps|], w) || Dir(states[|steps|], w).coming == []
    ensures Run(states', steps', inA, inB) && states'[|steps'|] == With(states[|steps|], w, d)
    ensures d.phase == Done && d.passed == Dir(states[|steps|], w).passed
    ensures d.err == if eof then Some(EofLike) else None
  {
    var s := states[|steps|];
    states', steps', d := EndCopySome(states, steps, inA, inB, w, eof);
    states', steps' := EndCopyExtended(states', steps', inA, inB, s, d, w);
    d := d.(phase := Done, writeClosed := true);
  }

  /** The caller cancels, and both streams are closed. */
  lemma CancelExtended(states: seq<State>, steps: seq<Step>, inA: bytes, inB: bytes)
    returns (states': seq<State>, steps': seq<Step>)
    requires Run(states, steps, inA, inB)
    requires var s := states[|steps|]; !s.parentCancelled && !s.closedA && !s.closedB
    ensures Run(states', steps', inA, inB)
    ensures states'[|steps'|] ==
            states[|steps|].(parentCancelled := true, cancelled := true, closedA := true, closedB := true)
  {
    var s1 := states[|steps|].(parentCancelled := true, cancelled := true);
    states', steps' := Extended(states, steps, inA, inB, CancelParent, s1);
    states', steps' := Extended(states', steps', inA, inB, CloseA, s1.(closedA := true));
    states', steps' := Extended(states', steps', inA, inB, CloseB, s1.(closedA := true, closedB := true));
  }

  /** How a relay can end that reports no error: what it passed on each way, whether the caller
      cancelled, and which directions met an error that counts as end of stream. */
  datatype Ending = Ending(passedA: bytes, passedB: bytes, cancelled: bool, eofA: bool, eofB: bool)

  ghost predicate EndsSilently(s: State, e: Ending) {
    && s.returned && s.err == None && s.parentCancelled == e.cancelled
    && s.ab.passed == e.passedA && (s.ab.err == Some(EofLike) <==> e.eofA)
    && s.ba.passed == e.passedB && (s.ba.err == Some(EofLike) <==> e.eofB)
  }

  ghost predicate Possible(inA: bytes, inB: bytes, e: Ending) {
    exists states: seq<State>, steps: seq<Step> ::
      Run(states, steps, inA, inB) && EndsSilently(states[|steps|], e)
  }

  /** Bytes are passed in order, and a direction that was not cut off passed on everything. */
  predicate Plausible(inA: bytes, inB: bytes, e: Ending) {
    && e.passedA <= inA && (e.passedA == inA || e.cancelled || e.eofA)
    && e.passedB <= inB && (e.passedB == inB || e.cancelled || e.eofB)
  }

  /** Both directions have copied what they will, and the caller has cancelled if it does. */
  lemma BeforeEnding(inA: bytes, inB: bytes, e: Ending) returns (states: seq<State>, steps: seq<Step>)
    requires Plausible(inA, inB, e)
    ensures Run(states, steps, inA, inB)
    ensures var s := states[|steps|];
            && AtRest(s.ab) && s.ab.passed == e.passedA && (s.ab.coming == [] <==> e.passedA == inA)
            && AtRest(s.ba) && s.ba.passed == e.passedB && (s.ba.coming == [] <==> e.passedB == inB)
            && s.parentCancelled == s.closedA == s.closedB == e.cancelled
            && s.noted == [] && s.err == None && !s.returned
  {
    states, steps := [Start(inA, inB)], [];
    states, steps := CopySome(states, steps, inA, inB, AToB, |e.passedA|);
    states, steps := CopySome(states, steps, inA, inB, BToA, |e.passedB|);
    if e.cancelled {
      states, steps := CancelExtended(states, steps, inA, inB);
    }
  }

  lemma PlausibleIsPossible(inA: bytes, inB: bytes, e: Ending)
    requires Plausible(inA, inB, e)
    ensures Possible(inA, inB, e)
  {
    var states, steps := BeforeEnding(inA, inB, e);
    var ab, ba;
    states, steps, ab := EndDirection(states, steps, inA, inB, AToB, e.eofA);
    states, steps, ba := EndDirection(states, steps, inA, inB, BToA, e.eofB);
    var s := states[|steps|];
    assert Fallback(s) == None;
    states, steps := Extended(states, steps, inA, inB, Return, s.(returned := true, cancelled := true));
    assert EndsSilently(states[|steps|], e);
  }

  /** What a relay that reports no error may have lost, exactly: an ending is possible iff each
      direction passed on a prefix of its input, and the whole of it unless the caller cancelled
      or its stream failed with an error that counts as end of stream. */
  lemma SilentEndingsIff(inA: bytes, inB: bytes, e: Ending)
    ensures Possible(inA, inB, e) <==> Plausible(inA, inB, e)
  {
    if Possible(inA, inB, e) {
      var states: seq<State>, steps: seq<Step> :|
        Run(states, steps, inA, inB) && EndsSilently(states[|steps|], e);
      InvHolds(states, steps, inA, inB, |steps|);
    }
    if Plausible(inA, inB, e) {
      PlausibleIsPossible(inA, inB, e);
    }
  }

  // ----- when the relay ends -----

  function Rank(p: Phase): nat {
    match p
    case Copying => 4
    case CopyEnded => 3
    case ErrorNoted => 2
    case HalfClosed => 1
    case Done => 0
  }

  /** What a direction has to do with what has arrived. */
  function Work(d: Direction): nat {
    3 * |d.arrived| + 2 * |d.hand| + Rank(d.phase)
  }

  function ControlWork(s: State): nat {
    (if s.closedA then 0 else 1) + (if s.closedB then 0 else 1) + (if s.returned then 0 else 1)
  }

  function Measure(s: State): nat {
    Work(s.ab) + Work(s.ba) + ControlWork(s)
  }

  lemma MoveLowersWork(d: Direction, st: Step, source: bool, dest: bool)
    requires MoveEnabled(d, st, source, dest) && !IsPeer(st)
    ensures Work(Move(d, st)) < Work(d)
  {
  }

  lemma ControlLowersWork(s: State, st: Step)
    requires Enabled(s, st) && IsControl(st) && !IsPeer(st)
    ensures Do(s, st).ab == s.ab && Do(s, st).ba == s.ba && ControlWork(Do(s, st)) < ControlWork(s)
  {
  }

  lemma WorkLowersMeasure(s: State, t: State, w: Way)
    requires Work(Dir(t, w)) < Work(Dir(s, w)) && ControlWork(t) == ControlWork(s)
    requires if w == AToB then t.ba == s.ba else t.ab == s.ab
    ensures Measure(t) < Measure(s)
  {
  }

  lemma StepLowersMeasure(s: State, st: Step)
    requires Enabled(s, st) && !IsPeer(st)
    ensures Measure(Do(s, st)) < Measure(s)
  {
    if IsControl(st) {
      ControlLowersWork(s, st);
    } else {
      MoveLowersWork(Dir(s, st.way), st, SourceClosed(s, st.way), DestinationClosed(s, st.way));
      DoMoves(s, st);
      WorkLowersMeasure(s, Do(s, st), st.way);
    }
  }

  /** The relay goes on alone: the peers and the caller do nothing. */
  ghost predicate Alone(s: State, states: seq<State>, steps: seq<Step>) {
    |states| == |steps| + 1 && states[0] == s && forall i | 0 <= i < |steps| :: AloneAt(states, steps, i)
  }

  ghost predicate AloneAt(states: seq<State>, steps: seq<Step>, i: nat)
    requires i < |steps| && |states| == |steps| + 1
  {
    !IsPeer(steps[i]) && Enabled(states[i], steps[i]) && states[i + 1] == Do(states[i], steps[i])
  }

  lemma AloneLowersMeasure(s: State, states: seq<State>, steps: seq<Step>, i: nat)
    requires Alone(s, states, steps) && i < |steps|
    ensures Measure(states[i + 1]) < Measure(states[i])
  {
    assert AloneAt(states, steps, i);
    StepLowersMeasure(states[i], steps[i]);
  }

  lemma {:induction false} AloneIsBounded(s: State, states: seq<State>, steps: seq<Step>, i: nat)
    requires Alone(s, states, steps) && i < |states|
    ensures Measure(states[i]) + i <= Measure(s)
    decreases i
  {
    if i > 0 {
      AloneIsBounded(s, states, steps, i - 1);
      AloneLowersMeasure(s, states, steps, i - 1);
    }
  }

  lemma {:induction false} AloneKeeps(s: State, states: seq<State>, steps: seq<Step>, inA: bytes, inB: bytes, i: nat)
    requires Inv(s, inA, inB) && Alone(s, states, steps) && i < |states|
    ensures Inv(states[i], inA, inB) && (Disturbed(s) ==> Disturbed(states[i]))
    decreases i
  {
    if i > 0 {
      AloneKeeps(s, states, steps, inA, inB, i - 1);
      assert AloneAt(states, steps, i - 1);
      StepKeeps(states[i - 1], steps[i - 1], inA, inB);
      if Disturbed(s) {
        StaysDisturbed(states[i - 1], steps[i - 1]);
      }
    }
  }

  /** The relay cannot go on alone. */
  ghost predicate Stuck(s: State) {
    forall st: Step | !IsPeer(st) :: !Enabled(s, st)
  }

  /** A direction waits for a peer that is silent: for bytes or the end of its source, or for
      room at its destination. */
  predicate Waits(d: Direction) {
    d.phase == Copying &&
    if d.hand == [] then d.arrived == [] && !d.ended && d.readError == None
    else d.room == 0 && d.writeError == None
  }

  /** The step a direction can take that neither is done nor waits for an open stream. */
  function NextMove(d: Direction, w: Way): Step
    requires d.phase != Done
  {
    match d.phase
    case Copying =>
      if d.hand != [] then
        if d.room > 0 then WriteSome(w, 1)
        else WriteFails(w, if d.writeError.Some? then d.writeError.value else EofLike)
      else if d.arrived != [] then ReadChunk(w, 1)
      else if d.ended then ReadEof(w)
      else ReadFails(w, if d.readError.Some? then d.readError.value else EofLike)
    case CopyEnded => NoteError(w)
    case ErrorNoted => HalfClose(w)
    case HalfClosed => WgDone(w)
  }

  lemma DirectionGoesOn(s: State, w: Way)
    requires Dir(s, w).phase != Done && (Waits(Dir(s, w)) ==> s.closedA && s.closedB)
    ensures Enabled(s, NextMove(Dir(s, w), w)) && !IsPeer(NextMove(Dir(s, w), w))
  {
  }

  /** In a stuck state each direction is done or waits, and if the context is cancelled both
      streams are closed. */
  lemma StuckDirection(s: State, w: Way)
    requires Stuck(s)
    ensures Dir(s, w).phase == Done || (Waits(Dir(s, w)) && !(s.closedA && s.closedB))
    ensures s.cancelled ==> s.closedA && s.closedB
  {
    if Dir(s, w).phase != Done && (Waits(Dir(s, w)) ==> s.closedA && s.closedB) {
      DirectionGoesOn(s, w);
      assert false;
    }
    assert s.cancelled && !s.closedA ==> Enabled(s, CloseA);
    assert s.cancelled && s.closedA && !s.closedB ==> Enabled(s, CloseB);
  }

  /** Exactly when the relay hangs.  In a reachable state in which it cannot go on alone, it
      has not returned iff a direction waits for a silent peer while no real error was met and
      nobody cancelled; and if it has returned it has closed both streams. */
  lemma HangsIff(states: seq<State>, steps: seq<Step>, inA: bytes, inB: bytes)
    requires Run(states, steps, inA, inB) && Stuck(states[|steps|])
    ensures var s := states[|steps|];
            && (!s.returned <==> (Waits(s.ab) || Waits(s.ba)) && s.noted == [] && !s.parentCancelled)
            && (s.returned ==> s.closedA && s.closedB)
  {
    var s := states[|steps|];
    InvHolds(states, steps, inA, inB, |steps|);
    StuckDirection(s, AToB);
    StuckDirection(s, BToA);
    assert !s.returned && s.ab.phase == Done && s.ba.phase == Done ==> Enabled(s, Return);
  }

  /** Cancellation ends the relay.  From every reachable state in which a real error was noted
      or the caller cancelled, the relay needs nobody: alone it takes at most `Measure` steps
      more, and when it can take no more it has returned and closed both streams. */
  lemma CancelledRelayReturns(states: seq<State>, steps: seq<Step>, inA: bytes, inB: bytes,
                              more: seq<State>, moreSteps: seq<Step>)
    requires Run(states, steps, inA, inB) && Disturbed(states[|steps|])
    requires Alone(states[|steps|], more, moreSteps)
    ensures |moreSteps| <= Measure(states[|steps|])
    ensures var t := more[|moreSteps|]; Stuck(t) ==> t.returned && t.closedA && t.closedB
  {
    var s, t := states[|steps|], more[|moreSteps|];
    InvHolds(states, steps, inA, inB, |steps|);
    AloneIsBounded(s, more, moreSteps, |moreSteps|);
    AloneKeeps(s, more, moreSteps, inA, inB, |moreSteps|);
    if Stuck(t) {
      StuckDirection(t, AToB);
      StuckDirection(t, BToA);
      assert !t.returned ==> Enabled(t, Return);
    }
  }
}
