/**
 Handlers of policy bundles that overlap: a bundle whose checkpoint test is overtaken by a newer
 bundle is applied all the same, since nothing looks at the checkpoint again
 (handlePolicyUpdate in internal/gateway/grpc_client/stream.go, ApplyDelta in store.go).
 When does such a late bundle do harm?
 */
module LateBundles {
  import opened Wrappers
  import opened Rules
  import opened PolicyLog
  import opened PolicySync

  // ----- a bundle that comes late -----

  lemma ReplayablePrefix(f: Buckets, b: seq<Mutation>, i: nat)
    requires i <= |b|
    ensures ReplayableUpTo(f, b, i) <==> Replayable(f, b[..i])
  {
    forall j | 0 <= j < i ensures FirstTouch(b, j) <==> FirstTouch(b[..i], j) {
      assert b[..i][..j] == b[..j];
    }
  }

  lemma PrefixRefused(st: Buckets, f0: Buckets, b: seq<Mutation>, absent: set<PolicyKey>, i: nat)
    requires Overlap(st, f0, b, absent) && i <= |b| && !Replayable(FoldFrom(f0, b), b[..i])
    ensures ApplyAll(st, b[..i]).None?
  {
    var f := FoldFrom(f0, b);
    var j := FirstBad(f, b[..i]);
    ReplayablePrefix(f, b, j);
    ReplayablePrefix(f, b[..i], j);
    assert b[..i][..j] == b[..j];
    ReplayRefusedAt(st, f0, b, absent, j);
    assert b[..i] == b[..j + 1] + b[..i][j + 1..];
    RefusalSticks(st, b[..j + 1], b[..i][j + 1..]);
  }

  lemma OverlapAt(st: Buckets, log: seq<Mutation>, base: nat, since: nat, c: nat)
    requires LegalFrom(EMPTY, log) && base <= since <= c <= |log| && StandsAt(st, log, base, c)
    ensures Overlap(st, Fold(log[..since]), log[since..c], Absent(log, base, c))
    ensures FoldFrom(Fold(log[..since]), log[since..c]) == Fold(log[..c])
  {
    Parts(log, since, c);
    KeysOfParts(log, base, since, c);
  }

  /** A bundle that ends at or below where the gateway stands is taken iff it starts over only
      policies that are deleted by now; it then puts those back to where they were when it was
      compiled, and leaves the others. */
  lemma LateIff(st: Buckets, log: seq<Mutation>, base: nat, since: nat, upTo: nat, c: nat)
    requires LegalFrom(EMPTY, log) && base <= since < upTo <= c <= |log| && StandsAt(st, log, base, c)
    ensures var r, delta := ApplyAll(st, log[since..upTo]), log[since..upTo];
            && (r.Some? <==> Replayable(Fold(log[..c]), delta))
            && (r.Some? ==> Halfway(r.value, st, Fold(log[..upTo]), Keys(delta)))
  {
    var b, i := log[since..c], upTo - since;
    var f0, absent := Fold(log[..since]), Absent(log, base, c);
    OverlapAt(st, log, base, since, c);
    assert b[..i] == log[since..upTo];
    Parts(log, since, upTo);
    ReplayablePrefix(Fold(log[..c]), b, i);
    if Replayable(Fold(log[..c]), b[..i]) {
      ReplayUpTo(st, f0, b, absent, i);
    } else {
      PrefixRefused(st, f0, b, absent, i);
    }
  }

  lemma {:induction false} TouchedIsKnown(f: Buckets, ms: seq<Mutation>, k: PolicyKey)
    requires Healthy(f) && LegalFrom(f, ms) && k in Keys(ms)
    ensures k in FoldFrom(f, ms).policies || k in FoldFrom(f, ms).tombs
    decreases |ms|
  {
    var n := |ms| - 1;
    assert ms == ms[..n] + [ms[n]];
    KeysStep(ms[..n], ms[n]);
    if k != Key(ms[n].rule) {
      TouchedIsKnown(f, ms[..n], k);
    }
  }

  /** Every policy of the bundle is deleted in the bundle itself. */
  ghost predicate EndsDead(log: seq<Mutation>, b: Bundle)
    requires WellCut(log, b)
  {
    forall k | k in Keys(Delta(log, b)) :: k !in Fold(log[..b.upTo]).policies
  }

  lemma DeadAt(st: Buckets, log: seq<Mutation>, base: nat, b: Bundle, c: nat, k: PolicyKey)
    requires LegalFrom(EMPTY, log) && WellCut(log, b) && base <= b.since && b.upTo <= c <= |log|
    requires StandsAt(st, log, base, c) && k in Keys(Delta(log, b)) && k !in Fold(log[..b.upTo]).policies
    ensures SameAt(Fold(log[..b.upTo]), st, k)
  {
    Parts(log, b.since, b.upTo);
    Parts(log, b.upTo, c);
    Parts(log, c, c);
    TouchedIsKnown(Fold(log[..b.since]), log[b.since..b.upTo], k);
    LaterInLog(Fold(log[..b.upTo]), log[b.upTo..c], k);
    KeysOfParts(log, base, b.since, b.upTo);
    KeysOfParts(log, base, b.upTo, c);
    Dead(st, Fold(log[..b.upTo]), Fold(log[..c]), Keys(log[base..c]), Absent(log, base, c), k);
  }

  lemma Dead(st: Buckets, f: Buckets, g: Buckets, recent: set<PolicyKey>, absent: set<PolicyKey>, k: PolicyKey)
    requires Healthy(f) && Healthy(g) && Synced(st, g, recent, absent) && k in recent && k in f.tombs && k in g.tombs
    ensures SameAt(f, st, k)
  {
  }

  /** Such a bundle, if taken late, leaves the store as it is. */
  lemma EndsDeadIsNeutral(st: Buckets, log: seq<Mutation>, base: nat, b: Bundle, c: nat, x: Buckets)
    requires LegalFrom(EMPTY, log) && WellCut(log, b) && base <= b.since && b.upTo <= c <= |log|
    requires StandsAt(st, log, base, c) && EndsDead(log, b)
    requires Halfway(x, st, Fold(log[..b.upTo]), Keys(Delta(log, b)))
    ensures x == st
  {
    forall k ensures SameAt(x, st, k) {
      assert if k in Keys(Delta(log, b)) then SameAt(x, Fold(log[..b.upTo]), k) else SameAt(x, st, k);
      if k in Keys(Delta(log, b)) {
        DeadAt(st, log, base, b, c, k);
      }
    }
    SameEverywhere(x, st);
  }

  /** Outside the bundle the gateway should hold the same at the bundle's end as at `c`. */
  ghost predicate SameElsewhere(log: seq<Mutation>, base: nat, b: Bundle, c: nat)
    requires WellCut(log, b) && base <= b.upTo && base <= c <= |log|
  {
    Held(log, base, b.upTo) - Keys(Delta(log, b)) == Held(log, base, c) - Keys(Delta(log, b))
  }

  lemma HeldAt(log: seq<Mutation>, base: nat, b: Bundle, k: PolicyKey)
    requires WellCut(log, b) && base <= b.since && k in Keys(Delta(log, b))
    ensures k in Held(log, base, b.upTo) <==> k in Fold(log[..b.upTo]).policies
  {
    KeysOfParts(log, base, b.since, b.upTo);
  }

  /** A store that a late bundle has set back holds what the bundle's end says iff nothing else
      has changed since. */
  lemma LateHoldsIff(st: Buckets, log: seq<Mutation>, base: nat, b: Bundle, c: nat, x: Buckets)
    requires WellCut(log, b) && base <= b.since && b.upTo <= c <= |log|
    requires StandsAt(st, log, base, c) && Halfway(x, st, Fold(log[..b.upTo]), Keys(Delta(log, b)))
    ensures x.policies == Held(log, base, b.upTo) <==> SameElsewhere(log, base, b, c)
  {
    var touched, back := Keys(Delta(log, b)), Fold(log[..b.upTo]);
    var old_, now := Held(log, base, b.upTo), Held(log, base, c);
    forall k
      ensures k in touched ==> (k in x.policies <==> k in old_) && (k in old_ ==> x.policies[k] == old_[k])
      ensures k !in touched ==> (k in x.policies <==> k in now) && (k in now ==> x.policies[k] == now[k])
    {
      assert if k in touched then SameAt(x, back, k) else SameAt(x, st, k);
      if k in touched {
        HeldAt(log, base, b, k);
      }
    }
    SameOutside(x.policies, old_, now, touched);
  }

  lemma SameOutside(x: map<PolicyKey, Rule>, old_: map<PolicyKey, Rule>, now: map<PolicyKey, Rule>,
                    touched: set<PolicyKey>)
    requires forall k | k in touched :: (k in x <==> k in old_) && (k in old_ ==> x[k] == old_[k])
    requires forall k | k !in touched :: (k in x <==> k in now) && (k in now ==> x[k] == now[k])
    ensures x == old_ <==> old_ - touched == now - touched
  {
    assert x - touched == now - touched;
    if old_ - touched == now - touched {
      forall k ensures (k in x <==> k in old_) && (k in old_ ==> x[k] == old_[k]) {
        if k !in touched {
          assert k in old_ <==> k in old_ - touched;
          assert k in x <==> k in x - touched;
        }
      }
      assert x == old_;
    }
  }

  // ----- exactly when a late bundle does no harm -----

  /** The bundle was not overtaken, or the store refuses it, or nothing outside it has changed
      above it and either it deletes whatever it brings or a mutation above the checkpoint does
      not compile, so that no further delta is ever taken. */
  ghost predicate Harmless(s: Sync, hd: Handler)
    requires Good(s) && CutAt(s.log, s.base, s.checkpoint, hd.bundle)
  {
    Overtaken(s, hd) && Replayable(Fold(s.log[..s.checkpoint]), Delta(s.log, hd.bundle)) ==>
      && SameElsewhere(s.log, s.base, hd.bundle, s.checkpoint)
      && (EndsDead(s.log, hd.bundle) || !Compiles(s.cidr, s.log[s.checkpoint..]))
  }

  ghost predicate KeepsRight(s: Sync, states: seq<Sync>, steps: seq<Step>) {
    Path(s, states, steps) && OneAtATime(states, steps) ==> Right(states[|steps|])
  }

  /** However it goes on, if handlers run one at a time from now on, the gateway always holds
      what its checkpoint says. */
  ghost predicate StaysRight(s: Sync) {
    forall states: seq<Sync>, steps: seq<Step> :: KeepsRight(s, states, steps)
  }

  /** Harmless for a given mutation `q` that does not compile, where one is needed. */
  ghost predicate HarmlessFor(s: Sync, hd: Handler, q: nat)
    requires Good(s) && CutAt(s.log, s.base, s.checkpoint, hd.bundle)
  {
    Overtaken(s, hd) && Replayable(Fold(s.log[..s.checkpoint]), Delta(s.log, hd.bundle)) ==>
      && SameElsewhere(s.log, s.base, hd.bundle, s.checkpoint)
      && (EndsDead(s.log, hd.bundle) || (s.checkpoint <= q < |s.log| && !CidrsParse(s.cidr, s.log[q].rule)))
  }

  lemma SomeDoesNotCompile(cidr: Cidr, log: seq<Mutation>, c: nat) returns (q: nat)
    requires c <= |log| && !Compiles(cidr, log[c..])
    ensures c <= q < |log| && !CidrsParse(cidr, log[q].rule)
  {
    var i :| 0 <= i < |log[c..]| && !CidrsParse(cidr, log[c..][i].rule);
    q := c + i;
  }

  lemma HarmlessForSome(s: Sync, hd: Handler) returns (q: nat)
    requires Good(s) && CutAt(s.log, s.base, s.checkpoint, hd.bundle) && Harmless(s, hd)
    ensures q < |s.log| && HarmlessFor(s, hd, q)
  {
    q := 0;
    if !Compiles(s.cidr, s.log[s.checkpoint..]) {
      q := SomeDoesNotCompile(s.cidr, s.log, s.checkpoint);
    }
  }

  /** A handler is up to date, has nothing to apply, or is the late but harmless one. */
  ghost predicate HandlerOk(s: Sync, p: nat, q: nat, hd: Handler) {
    CutAt(s.log, s.base, p, hd.bundle) && hd.seen <= s.checkpoint &&
    (p <= hd.bundle.upTo || hd.bundle.upTo <= hd.seen || (p == s.checkpoint && Good(s) && HarmlessFor(s, hd, q)))
  }

  /** The bundles under way end at or above the gateway's position, and above `q`. */
  ghost predicate NothingOld(s: Sync, p: nat, q: nat) {
    forall b | b in s.inFlight :: p <= b.upTo && q < b.upTo
  }

  ghost predicate LatePending(s: Sync) {
    exists h :: h in s.handlers && Overtaken(s, s.handlers[h])
  }

  /** What a continuation keeps: the gateway stands at some `p` at or above its checkpoint, and
      nothing old is under way while the checkpoint is behind or a late bundle is pending. */
  ghost predicate Calm(s: Sync, p: nat, q: nat) {
    && Standing(s, p) && TrafficOk(s, p) && q < |s.log|
    && (forall h, k | h in s.handlers && k in s.handlers :: h == k)
    && (forall h | h in s.handlers :: HandlerOk(s, p, q, s.handlers[h]))
    && (s.checkpoint < p || LatePending(s) ==> NothingOld(s, p, q))
  }

  lemma SlicesStay(log: seq<Mutation>, m: Mutation, base: nat, c: nat, b: Bundle)
    requires WellCut(log, b) && base <= b.upTo && base <= c <= |log|
    ensures (log + [m])[..c] == log[..c] && (log + [m])[..b.upTo] == log[..b.upTo]
    ensures WellCut(log + [m], b) && Delta(log + [m], b) == Delta(log, b)
    ensures EndsDead(log + [m], b) <==> EndsDead(log, b)
    ensures SameElsewhere(log + [m], base, b, c) <==> SameElsewhere(log, base, b, c)
  {
    assert (log + [m])[..b.upTo] == log[..b.upTo];
    assert Delta(log + [m], b) == Delta(log, b);
    LongerLog(EMPTY, log, m, base, b.upTo);
    LongerLog(EMPTY, log, m, base, c);
  }

  lemma HarmlessStays(s: Sync, m: Mutation, hd: Handler, q: nat)
    requires Good(s) && CutAt(s.log, s.base, s.checkpoint, hd.bundle) && HarmlessFor(s, hd, q) && Legal(s.log + [m])
    ensures var t := s.(log := s.log + [m]);
            Good(t) && CutAt(t.log, t.base, t.checkpoint, hd.bundle) && HarmlessFor(t, hd, q)
  {
    MutateKeeps(s, s.checkpoint, m);
    SlicesStay(s.log, m, s.base, s.checkpoint, hd.bundle);
  }

  lemma HandlerOkInLongerLog(s: Sync, p: nat, q: nat, m: Mutation, hd: Handler)
    requires HandlerOk(s, p, q, hd) && Legal(s.log + [m])
    ensures HandlerOk(s.(log := s.log + [m]), p, q, hd)
  {
    if hd.seen < hd.bundle.upTo < p {
      HarmlessStays(s, m, hd, q);
    }
  }

  lemma MutateKeepsCalm(s: Sync, p: nat, q: nat, m: Mutation)
    requires Calm(s, p, q) && Enabled(s, Mutate(m))
    ensures Calm(Do(s, Mutate(m)), p, q)
  {
    var t := Do(s, Mutate(m));
    MutateKeeps(s, p, m);
    forall h | h in t.handlers ensures HandlerOk(t, p, q, t.handlers[h]) {
      HandlerOkInLongerLog(s, p, q, m, s.handlers[h]);
    }
  }

  lemma NewHandlerOk(s: Sync, p: nat, q: nat, b: Bundle)
    requires Calm(s, p, q) && b in s.inFlight
    ensures HandlerOk(s, p, q, Handler(b, s.checkpoint)) && !Overtaken(s, Handler(b, s.checkpoint))
  {
    assert CutAt(s.log, s.base, p, b);
  }

  lemma ArriveKeepsCalm(s: Sync, p: nat, q: nat, h: int, b: Bundle)
    requires Calm(s, p, q) && Enabled(s, Arrive(h, b)) && s.handlers == map[]
    ensures Calm(Do(s, Arrive(h, b)), p, q)
  {
    var t := Do(s, Arrive(h, b));
    TrafficKeeps(s, p, Arrive(h, b));
    NewHandlerOk(s, p, q, b);
    assert t.handlers == map[h := Handler(b, s.checkpoint)];
    SameHandlersOk(s, t, p, q, Handler(b, s.checkpoint));
    assert NothingOld(s, p, q) ==> NothingOld(t, p, q);
  }

  /** Traffic that starts no handler. */
  lemma SameHandlersOk(s: Sync, t: Sync, p: nat, q: nat, hd: Handler)
    requires HandlerOk(s, p, q, hd) && Standing(t, p) && TrafficOk(t, p)
    requires t.cidr == s.cidr && t.log == s.log && t.base == s.base && t.checkpoint == s.checkpoint
    ensures HandlerOk(t, p, q, hd)
  {
  }

  lemma StreamKeepsCalm(s: Sync, t: Sync, p: nat, q: nat)
    requires Calm(s, p, q) && Standing(t, p) && TrafficOk(t, p) && (NothingOld(s, p, q) ==> NothingOld(t, p, q))
    requires t.cidr == s.cidr && t.log == s.log && t.base == s.base && t.checkpoint == s.checkpoint
    requires t.handlers == s.handlers
    ensures Calm(t, p, q)
  {
    forall h | h in t.handlers ensures HandlerOk(t, p, q, t.handlers[h]) {
      SameHandlersOk(s, t, p, q, s.handlers[h]);
    }
  }

  lemma SendKeepsCalm(s: Sync, p: nat, q: nat, step: Step)
    requires Calm(s, p, q) && Enabled(s, step) && (step.Send? || step.Lose? || step.Report?)
    ensures Calm(Do(s, step), p, q)
  {
    TrafficKeeps(s, p, step);
    StreamKeepsCalm(s, Do(s, step), p, q);
  }

  lemma OnlyHandler(s: Sync, h: int)
    requires h in s.handlers && forall k | k in s.handlers :: k == h
    ensures s.handlers - {h} == map[]
  {
    var rest := s.handlers - {h};
    assert forall k | k in rest :: k in s.handlers && k != h;
    assert rest.Keys == {};
  }

  lemma NoHandlerIsCalm(s: Sync, p: nat, q: nat)
    requires Standing(s, p) && TrafficOk(s, p) && s.handlers == map[] && q < |s.log|
    requires s.checkpoint < p ==> NothingOld(s, p, q)
    ensures Calm(s, p, q)
  {
  }

  /** A handler that only acknowledges, or changes nothing at all. */
  lemma QuietTraffic(s: Sync, p: nat, q: nat, t: Sync, g: nat)
    requires Standing(s, p) && TrafficOk(s, p) && s.base <= g <= p && q < |s.log|
    requires s.checkpoint < p ==> NothingOld(s, p, q)
    requires t == s.(reported := s.reported + {g}, handlers := map[])
    ensures Calm(t, p, q)
  {
    assert NothingOld(s, p, q) ==> NothingOld(t, p, q);
    NoHandlerIsCalm(t, p, q);
  }

  lemma AckKeepsCalm(s: Sync, p: nat, q: nat, h: int)
    requires Calm(s, p, q) && Enabled(s, Finish(h))
    requires s.handlers[h].bundle.upTo <= s.handlers[h].seen || Finished(s, s.handlers[h]) == s
    ensures Calm(Do(s, Finish(h)), p, q)
  {
    var hd, t := s.handlers[h], Do(s, Finish(h));
    assert forall k | k in s.handlers :: k == h;
    OnlyHandler(s, h);
    assert CutAt(s.log, s.base, p, hd.bundle);
    if hd.bundle.upTo <= hd.seen {
      QuietTraffic(s, p, q, t, hd.seen);
    } else {
      assert s.reported + {s.checkpoint} == s.reported;
      QuietTraffic(s, p, q, t, s.checkpoint);
    }
  }

  lemma TakenKeepsCalm(s: Sync, p: nat, q: nat, h: int)
    requires Calm(s, p, q) && Enabled(s, Finish(h)) && p <= s.handlers[h].bundle.upTo
    requires s.handlers[h].seen < s.handlers[h].bundle.upTo && Finished(s, s.handlers[h]) != s
    ensures Calm(Do(s, Finish(h)), s.handlers[h].bundle.upTo, q)
  {
    var t := Do(s, Finish(h));
    ApplyKeeps(s, p, s.handlers[h]);
    assert forall k | k in s.handlers :: k == h;
    OnlyHandler(s, h);
    NoHandlerIsCalm(t, t.checkpoint, q);
  }

  // ----- a gateway that can take nothing any more -----

  /** The gateway is right, and every bundle under way or to come contains the mutation `q`,
      which does not compile. */
  ghost predicate Jammed(s: Sync, q: nat) {
    && Legal(s.log) && 0 < s.base <= s.checkpoint <= q < |s.log| && !CidrsParse(s.cidr, s.log[q].rule) && Right(s)
    && (forall g | g in s.reported :: g <= q)
    && (forall b | b in s.inFlight :: Across(s.log, q, b))
    && (forall h | h in s.handlers :: Across(s.log, q, s.handlers[h].bundle) && s.handlers[h].seen <= q)
  }

  ghost predicate Across(log: seq<Mutation>, q: nat, b: Bundle) {
    b.since <= q < b.upTo <= |log|
  }

  lemma AcrossIsRefused(s: Sync, q: nat, hd: Handler)
    requires q < |s.log| && !CidrsParse(s.cidr, s.log[q].rule) && Across(s.log, q, hd.bundle) && hd.seen <= q
    ensures Finished(s, hd) == s
  {
    assert Delta(s.log, hd.bundle)[q - hd.bundle.since] == s.log[q];
  }

  lemma MutateKeepsJammed(s: Sync, q: nat, m: Mutation)
    requires Jammed(s, q) && Enabled(s, Mutate(m))
    ensures Jammed(Do(s, Mutate(m)), q)
  {
    LongerLog(s.st, s.log, m, s.base, s.checkpoint);
  }

  lemma FinishKeepsJammed(s: Sync, q: nat, h: int)
    requires Jammed(s, q) && Enabled(s, Finish(h))
    ensures Jammed(Do(s, Finish(h)), q)
  {
    AcrossIsRefused(s, q, s.handlers[h]);
  }

  lemma StepKeepsJammed(s: Sync, q: nat, step: Step)
    requires Jammed(s, q) && Enabled(s, step)
    ensures Jammed(Do(s, step), q)
  {
    match step {
      case Mutate(m) => MutateKeepsJammed(s, q, m);
      case Finish(h) => FinishKeepsJammed(s, q, h);
      case _ =>
    }
  }

  // ----- a continuation stays calm, or jams -----

  ghost predicate Fine(s: Sync, p: nat, q: nat, jammed: bool) {
    if jammed then Jammed(s, q) else Calm(s, p, q)
  }

  lemma LateCompiles(s: Sync, b: Bundle)
    requires Good(s) && CutAt(s.log, s.base, s.checkpoint, b) && b.upTo <= s.checkpoint
    ensures Compiles(s.cidr, Delta(s.log, b))
  {
    forall i | 0 <= i < |Delta(s.log, b)| ensures CidrsParse(s.cidr, Delta(s.log, b)[i].rule) {
      assert s.log[s.base..s.checkpoint][b.since + i - s.base] == s.log[b.since + i];
    }
  }

  /** What a late bundle makes of a gateway in good standing. */
  lemma LateOutcome(s: Sync, hd: Handler)
    requires Good(s) && CutAt(s.log, s.base, s.checkpoint, hd.bundle) && Overtaken(s, hd)
    ensures var b, t := hd.bundle, Finished(s, hd);
            if Replayable(Fold(s.log[..s.checkpoint]), Delta(s.log, b)) then
              && t == s.(st := t.st, checkpoint := b.upTo, reported := s.reported + {b.upTo})
              && Halfway(t.st, s.st, Fold(s.log[..b.upTo]), Keys(Delta(s.log, b)))
              && Take(s.cidr, s.st, Delta(s.log, b)).Some?
            else t == s
  {
    LateIff(s.st, s.log, s.base, hd.bundle.since, hd.bundle.upTo, s.checkpoint);
    LateCompiles(s, hd.bundle);
  }

  /** A late bundle that deletes whatever it brings leaves the gateway where it stands. */
  lemma EndsDeadStands(s: Sync, hd: Handler)
    requires Good(s) && CutAt(s.log, s.base, s.checkpoint, hd.bundle) && Overtaken(s, hd)
    requires Replayable(Fold(s.log[..s.checkpoint]), Delta(s.log, hd.bundle))
    requires EndsDead(s.log, hd.bundle) && SameElsewhere(s.log, s.base, hd.bundle, s.checkpoint)
    ensures Finished(s, hd).st == s.st && Standing(Finished(s, hd), s.checkpoint)
  {
    var t := Finished(s, hd);
    LateOutcome(s, hd);
    EndsDeadIsNeutral(s.st, s.log, s.base, hd.bundle, s.checkpoint, t.st);
    LateHoldsIff(s.st, s.log, s.base, hd.bundle, s.checkpoint, t.st);
  }

  lemma DeadFinishKeepsCalm(s: Sync, q: nat, h: int)
    requires Calm(s, s.checkpoint, q) && Good(s) && Enabled(s, Finish(h)) && Overtaken(s, s.handlers[h])
    requires Replayable(Fold(s.log[..s.checkpoint]), Delta(s.log, s.handlers[h].bundle))
    requires EndsDead(s.log, s.handlers[h].bundle)
    requires CutAt(s.log, s.base, s.checkpoint, s.handlers[h].bundle)
    requires SameElsewhere(s.log, s.base, s.handlers[h].bundle, s.checkpoint)
    ensures Calm(Do(s, Finish(h)), s.checkpoint, q)
  {
    var t := Do(s, Finish(h));
    EndsDeadStands(s, s.handlers[h]);
    LateOutcome(s, s.handlers[h]);
    assert forall k | k in s.handlers :: k == h;
    OnlyHandler(s, h);
    assert LatePending(s) && NothingOld(s, s.checkpoint, q);
    assert NothingOld(t, s.checkpoint, q);
    NoHandlerIsCalm(t, s.checkpoint, q);
  }

  lemma LateFinishJams(s: Sync, q: nat, h: int)
    requires Calm(s, s.checkpoint, q) && Good(s) && Enabled(s, Finish(h)) && Overtaken(s, s.handlers[h])
    requires Replayable(Fold(s.log[..s.checkpoint]), Delta(s.log, s.handlers[h].bundle))
    requires CutAt(s.log, s.base, s.checkpoint, s.handlers[h].bundle)
    requires SameElsewhere(s.log, s.base, s.handlers[h].bundle, s.checkpoint)
    requires s.checkpoint <= q < |s.log| && !CidrsParse(s.cidr, s.log[q].rule)
    ensures Jammed(Do(s, Finish(h)), q)
  {
    var t := Do(s, Finish(h));
    LateOutcome(s, s.handlers[h]);
    LateHoldsIff(s.st, s.log, s.base, s.handlers[h].bundle, s.checkpoint, t.st);
    assert forall k | k in s.handlers :: k == h;
    OnlyHandler(s, h);
    assert LatePending(s) && NothingOld(s, s.checkpoint, q);
  }

  lemma FinishKeepsFine(s: Sync, p: nat, q: nat, h: int) returns (p': nat, jammed: bool)
    requires Calm(s, p, q) && Enabled(s, Finish(h))
    ensures Fine(Do(s, Finish(h)), p', q, jammed)
  {
    var hd := s.handlers[h];
    p', jammed := p, false;
    assert HandlerOk(s, p, q, hd);
    if hd.bundle.upTo <= hd.seen {
      AckKeepsCalm(s, p, q, h);
    } else if hd.bundle.upTo < p {
      LateOutcome(s, hd);
      if !Replayable(Fold(s.log[..s.checkpoint]), Delta(s.log, hd.bundle)) {
        AckKeepsCalm(s, p, q, h);
      } else if EndsDead(s.log, hd.bundle) {
        DeadFinishKeepsCalm(s, q, h);
      } else {
        LateFinishJams(s, q, h);
        jammed := true;
      }
    } else if Finished(s, hd) == s {
      AckKeepsCalm(s, p, q, h);
    } else {
      TakenKeepsCalm(s, p, q, h);
      p' := hd.bundle.upTo;
    }
  }

  lemma StepKeepsFine(s: Sync, p: nat, q: nat, jammed: bool, step: Step) returns (p': nat, jammed': bool)
    requires Fine(s, p, q, jammed) && Enabled(s, step) && (step.Arrive? ==> s.handlers == map[])
    ensures Fine(Do(s, step), p', q, jammed')
  {
    p', jammed' := p, jammed;
    if jammed {
      StepKeepsJammed(s, q, step);
    } else {
      match step {
        case Mutate(m) => MutateKeepsCalm(s, p, q, m);
        case Arrive(h, b) => ArriveKeepsCalm(s, p, q, h, b);
        case Finish(h) => p', jammed' := FinishKeepsFine(s, p, q, h);
        case _ => SendKeepsCalm(s, p, q, step);
      }
    }
  }

  ghost predicate AloneAt(states: seq<Sync>, steps: seq<Step>, i: int)
    requires |states| == |steps| + 1 && 0 <= i < |steps|
  {
    StepAt(states, steps, i) && (steps[i].Arrive? ==> states[i].handlers == map[])
  }

  lemma FineStep(states: seq<Sync>, steps: seq<Step>, i: nat, p: nat, q: nat, jammed: bool)
    returns (p': nat, jammed': bool)
    requires |states| == |steps| + 1 && i < |steps| && AloneAt(states, steps, i) && Fine(states[i], p, q, jammed)
    ensures Fine(states[i + 1], p', q, jammed')
  {
    p', jammed' := StepKeepsFine(states[i], p, q, jammed, steps[i]);
  }

  lemma {:induction false} AloneKeepsFine(states: seq<Sync>, steps: seq<Step>, p: nat, q: nat, i: nat)
    returns (p': nat, jammed: bool)
    requires |states| == |steps| + 1 && i < |states| && Fine(states[0], p, q, false)
    requires forall j | 0 <= j < |steps| :: AloneAt(states, steps, j)
    ensures Fine(states[i], p', q, jammed)
    decreases i
  {
    p', jammed := p, false;
    if i > 0 {
      p', jammed := AloneKeepsFine(states, steps, p, q, i - 1);
      assert AloneAt(states, steps, i - 1);
      p', jammed := FineStep(states, steps, i - 1, p', q, jammed);
    }
  }

  lemma PathIsAlone(s: Sync, states: seq<Sync>, steps: seq<Step>)
    requires Path(s, states, steps) && OneAtATime(states, steps)
    ensures |states| == |steps| + 1 && forall j | 0 <= j < |steps| :: AloneAt(states, steps, j)
  {
  }

  lemma FineIsRight(s: Sync, p: nat, q: nat, jammed: bool)
    requires Fine(s, p, q, jammed)
    ensures Right(s)
  {
  }

  lemma HarmlessStaysRight(s: Sync, h: int)
    requires Good(s) && s.handlers.Keys == {h} && s.inFlight == multiset{} && Harmless(s, s.handlers[h])
    ensures StaysRight(s)
  {
    var q := HarmlessForSome(s, s.handlers[h]);
    assert Calm(s, s.checkpoint, q);
    forall states: seq<Sync>, steps: seq<Step> ensures KeepsRight(s, states, steps) {
      if Path(s, states, steps) && OneAtATime(states, steps) {
        PathIsAlone(s, states, steps);
        var p, jammed := AloneKeepsFine(states, steps, s.checkpoint, q, |steps|);
        FineIsRight(states[|steps|], p, q, jammed);
      }
    }
  }

  // ----- any other late bundle does harm -----

  /** A delta that touches none of the policies in which two stores differ. */
  lemma {:induction false} ApplyElsewhere(x: Buckets, st: Buckets, d: seq<Mutation>, apart: set<PolicyKey>)
    requires ApplyAll(st, d).Some? && Keys(d) !! apart && forall k | k !in apart :: SameAt(x, st, k)
    ensures ApplyAll(x, d).Some?
    ensures forall k | k !in apart :: SameAt(ApplyAll(x, d).value, ApplyAll(st, d).value, k)
    ensures forall k | k in apart :: SameAt(ApplyAll(x, d).value, x, k)
    decreases |d|
  {
    if d != [] {
      var n := |d| - 1;
      assert d == d[..n] + [d[n]];
      KeysStep(d[..n], d[n]);
      ApplyElsewhere(x, st, d[..n], apart);
      ApplyOneElsewhere(ApplyAll(x, d[..n]).value, ApplyAll(st, d[..n]).value, x, d[n], apart);
    }
  }

  lemma ApplyOneElsewhere(x: Buckets, st: Buckets, x0: Buckets, m: Mutation, apart: set<PolicyKey>)
    requires ApplyRecord(st, m).Some? && Key(m.rule) !in apart
    requires forall k | k !in apart :: SameAt(x, st, k)
    requires forall k | k in apart :: SameAt(x, x0, k)
    ensures ApplyRecord(x, m).Some?
    ensures forall k | k !in apart :: SameAt(ApplyRecord(x, m).value, ApplyRecord(st, m).value, k)
    ensures forall k | k in apart :: SameAt(ApplyRecord(x, m).value, x0, k)
  {
    assert SameAt(x, st, Key(m.rule));
    var y, t := ApplyRecord(x, m).value, ApplyRecord(st, m).value;
    forall k | k !in apart ensures SameAt(y, t, k) {
      assert SameAt(x, st, k);
    }
    forall k | k in apart ensures SameAt(y, x0, k) {
      assert SameAt(x, x0, k);
    }
  }

  /** No mutation touches a deleted policy again. */
  lemma {:induction false} DeadIsUntouched(f: Buckets, d: seq<Mutation>, k: PolicyKey)
    requires Healthy(f) && LegalFrom(f, d) && k in f.tombs
    ensures k !in Keys(d) && k !in FoldFrom(f, d).policies
    decreases |d|
  {
    FoldIsHealthy(f, d);
    LaterInLog(f, d, k);
    if d != [] {
      var n := |d| - 1;
      assert d == d[..n] + [d[n]];
      KeysStep(d[..n], d[n]);
      DeadIsUntouched(f, d[..n], k);
      FoldIsHealthy(f, d[..n]);
      LaterInLog(f, d[..n], k);
    }
  }

  lemma ReplayableIsDead(f: Buckets, b: seq<Mutation>, k: PolicyKey)
    requires Replayable(f, b) && k in Keys(b)
    ensures k in f.tombs
  {
    var i :| 0 <= i < |b| && Key(b[i].rule) == k;
    var j := FirstOf(b, i);
    assert StartsOver(f, b[j]);
  }

  function FreshId(log: seq<Mutation>): string {
    if log == [] then "x" else FreshId(log[..|log| - 1]) + log[|log| - 1].rule.policyId
  }

  lemma {:induction false} FreshIsLonger(log: seq<Mutation>, i: nat)
    requires i < |log|
    ensures |FreshId(log)| > |log[i].rule.policyId|
    decreases |log|
  {
    if i < |log| - 1 {
      FreshIsLonger(log[..|log| - 1], i);
    } else {
      FreshNotEmpty(log[..|log| - 1]);
    }
  }

  lemma {:induction false} FreshNotEmpty(log: seq<Mutation>)
    ensures |FreshId(log)| > 0
    decreases |log|
  {
    if log != [] {
      FreshNotEmpty(log[..|log| - 1]);
    }
  }

  /** A policy nobody has created yet. */
  function Creation(log: seq<Mutation>): Mutation {
    Mutation(|log| + 1, Upsert, Rule(FreshId(log), "", "", "", "", Unspecified, 0, 1, true, "", None, None, None))
  }

  lemma {:induction false} FoldKnowsOnlyTouched(ms: seq<Mutation>, k: PolicyKey)
    requires k in Fold(ms).policies || k in Fold(ms).tombs
    ensures k in Keys(ms)
    decreases |ms|
  {
    if ms != [] {
      var n := |ms| - 1;
      assert ms == ms[..n] + [ms[n]];
      KeysStep(ms[..n], ms[n]);
      if k != Key(ms[n].rule) {
        FoldKnowsOnlyTouched(ms[..n], k);
      }
    }
  }

  lemma CreationIsLegal(log: seq<Mutation>)
    requires Legal(log)
    ensures Legal(log + [Creation(log)])
  {
    var m, more := Creation(log), log + [Creation(log)];
    var k := Key(m.rule);
    FreshNotEmpty(log);
    if k in Fold(log).policies || k in Fold(log).tombs {
      FoldKnowsOnlyTouched(log, k);
      var i :| 0 <= i < |log| && Key(log[i].rule) == k;
      FreshIsLonger(log, i);
      assert false;
    }
    assert more[..|more| - 1] == log;
  }

  /** What a later delta makes of a store into which a late bundle has brought a policy back. */
  lemma RevivedStays(st: Buckets, x: Buckets, log: seq<Mutation>, base: nat, b: Bundle, c: nat, k: PolicyKey)
    requires LegalFrom(EMPTY, log) && WellCut(log, b) && base <= b.since && b.upTo <= c <= |log|
    requires StandsAt(st, log, base, c) && Replayable(Fold(log[..c]), Delta(log, b))
    requires Halfway(x, st, Fold(log[..b.upTo]), Keys(Delta(log, b)))
    requires k in Keys(Delta(log, b)) && k in Fold(log[..b.upTo]).policies
    ensures ApplyAll(x, log[c..]).Some? && k in ApplyAll(x, log[c..]).value.policies
    ensures k !in Fold(log).policies
  {
    var f, d, apart, back := Fold(log[..c]), log[c..], Keys(Delta(log, b)), Fold(log[..b.upTo]);
    assert log[..|log|] == log && log[c..|log|] == d;
    Parts(log, c, |log|);
    CleanDeltaConverges(st, f, Keys(log[base..c]), Absent(log, base, c), d);
    forall j | j in apart ensures j in f.tombs && j !in Keys(d) {
      ReplayableIsDead(f, Delta(log, b), j);
      DeadIsUntouched(f, d, j);
    }
    forall j | j !in apart ensures SameAt(x, st, j) {
      assert if j in apart then SameAt(x, back, j) else SameAt(x, st, j);
    }
    assert SameAt(x, back, k);
    ApplyElsewhere(x, st, d, apart);
    assert SameAt(ApplyAll(x, d).value, x, k);
    DeadIsUntouched(f, d, k);
  }

  lemma AfterTaken(s: Sync, h: int) returns (t: Sync)
    requires Good(s) && s.handlers.Keys == {h} && Enabled(s, Finish(h)) && Overtaken(s, s.handlers[h])
    requires Replayable(Fold(s.log[..s.checkpoint]), Delta(s.log, s.handlers[h].bundle))
    ensures t == Do(s, Finish(h)) && t.handlers == map[] && t.log == s.log && t.cidr == s.cidr
    ensures t.checkpoint == s.handlers[h].bundle.upTo && s.checkpoint in t.reported && t.base == s.base
    ensures var b := s.handlers[h].bundle;
            Halfway(t.st, s.st, Fold(s.log[..b.upTo]), Keys(Delta(s.log, b)))
  {
    t := Do(s, Finish(h));
    LateOutcome(s, s.handlers[h]);
    OnlyHandler(s, h);
  }

  lemma CreationCompiles(cidr: Cidr, log: seq<Mutation>, c: nat)
    requires c <= |log| && Compiles(cidr, log[c..])
    ensures Compiles(cidr, (log + [Creation(log)])[c..])
  {
    assert (log + [Creation(log)])[c..] == log[c..] + [Creation(log)];
  }

  lemma ThereAndBack(inFlight: multiset<Bundle>, b: Bundle)
    ensures inFlight + multiset{b} - multiset{b} == inFlight
  {
  }

  /** The delta above `c` is handled alone. */
  lemma OneDelta(t: Sync, h: int, b: Bundle) returns (states: seq<Sync>, steps: seq<Step>)
    requires WellCut(t.log, b) && b.upTo == |t.log| && b.since in t.reported && t.handlers == map[]
    requires t.checkpoint < b.upTo
    ensures Path(t, states, steps) && OneAtATime(states, steps)
    ensures states[|steps|] == Finished(t.(handlers := map[h := Handler(b, t.checkpoint)]), Handler(b, t.checkpoint))
                               .(handlers := map[])
  {
    var t2 := t.(inFlight := t.inFlight + multiset{b});
    ThereAndBack(t.inFlight, b);
    var t3 := t.(handlers := map[h := Handler(b, t.checkpoint)]);
    assert Do(t2, Arrive(h, b)) == t3;
    var t4 := Do(t3, Finish(h));
    assert t3.handlers - {h} == map[];
    states, steps := [t, t2, t3, t4], [Send(b.since), Arrive(h, b), Finish(h)];
  }

  /** From there on, alone: a policy is created, and the delta above `c` is handled. */
  lemma NextDelta(t: Sync, h: int, c: nat) returns (states: seq<Sync>, steps: seq<Step>)
    requires Legal(t.log) && t.checkpoint < c <= |t.log| && c in t.reported && t.handlers == map[]
    ensures Path(t, states, steps) && OneAtATime(states, steps)
    ensures var u, log := states[|steps|], t.log + [Creation(t.log)];
            && u.log == log && u.base == t.base
            && (Take(t.cidr, t.st, log[c..]).Some? ==>
                  u.checkpoint == |log| && u.st == Take(t.cidr, t.st, log[c..]).value)
  {
    CreationIsLegal(t.log);
    var t1 := Do(t, Mutate(Creation(t.log)));
    var b := Bundle(c, |t1.log|);
    assert Delta(t1.log, b) == t1.log[c..];
    states, steps := OneDelta(t1, h, b);
    Prepend(t, Mutate(Creation(t.log)), states, steps);
    assert ([t] + states)[|[Mutate(Creation(t.log))] + steps|] == states[|steps|];
    states, steps := [t] + states, [Mutate(Creation(t.log))] + steps;
  }

  lemma Prepend(s: Sync, step: Step, states: seq<Sync>, steps: seq<Step>)
    requires Enabled(s, step) && states != [] && Path(Do(s, step), states, steps)
    requires OneAtATime(states, steps) && !step.Arrive?
    ensures Path(s, [s] + states, [step] + steps) && OneAtATime([s] + states, [step] + steps)
  {
    var states', steps' := [s] + states, [step] + steps;
    forall i | 0 <= i < |steps'| ensures StepAt(states', steps', i) {
      if i > 0 {
        assert StepAt(states, steps, i - 1);
        assert steps'[i] == steps[i - 1] && states'[i] == states[i - 1] && states'[i + 1] == states[i];
      }
    }
    forall i | 0 <= i < |steps'| && i < |states'| && steps'[i].Arrive? ensures states'[i].handlers == map[] {
      assert steps'[i] == steps[i - 1] && states'[i] == states[i - 1];
    }
  }

  /** The same in a log that has grown by one mutation. */
  lemma RevivedInLongerLog(st: Buckets, x: Buckets, log: seq<Mutation>, m: Mutation, base: nat,
                           b: Bundle, c: nat, k: PolicyKey)
    requires LegalFrom(EMPTY, log + [m]) && WellCut(log, b) && base <= b.since && b.upTo <= c <= |log|
    requires StandsAt(st, log, base, c) && Replayable(Fold(log[..c]), Delta(log, b))
    requires Halfway(x, st, Fold(log[..b.upTo]), Keys(Delta(log, b)))
    requires k in Keys(Delta(log, b)) && k in Fold(log[..b.upTo]).policies
    ensures var more := log + [m];
            && ApplyAll(x, more[c..]).Some? && k in ApplyAll(x, more[c..]).value.policies
            && k !in Held(more, base, |more|)
  {
    var more := log + [m];
    LongerLog(st, log, m, base, c);
    assert more[..c] == log[..c] && more[..b.upTo] == log[..b.upTo] && Delta(more, b) == Delta(log, b);
    RevivedStays(st, x, more, base, b, c, k);
    assert more[..|more|] == more;
  }

  lemma BreaksAfter(s: Sync, step: Step, states: seq<Sync>, steps: seq<Step>)
    requires Enabled(s, step) && !step.Arrive?
    requires Path(Do(s, step), states, steps) && OneAtATime(states, steps) && !Right(states[|steps|])
    ensures !StaysRight(s)
  {
    Prepend(s, step, states, steps);
    assert ([s] + states)[|[step] + steps|] == states[|steps|];
    assert !KeepsRight(s, [s] + states, [step] + steps);
  }

  /** A store into which a late bundle brought a policy back: the next delta is taken and the
      policy stays. */
  lemma RevivedIsWrong(st: Buckets, t: Sync, b: Bundle, h: int, c: nat, k: PolicyKey)
    returns (states: seq<Sync>, steps: seq<Step>)
    requires Legal(t.log) && t.checkpoint < c <= |t.log| && c in t.reported && t.base <= c && t.handlers == map[]
    requires Compiles(t.cidr, t.log[c..])
    requires WellCut(t.log, b) && t.base <= b.since && b.upTo <= c
    requires StandsAt(st, t.log, t.base, c) && Replayable(Fold(t.log[..c]), Delta(t.log, b))
    requires Halfway(t.st, st, Fold(t.log[..b.upTo]), Keys(Delta(t.log, b)))
    requires k in Keys(Delta(t.log, b)) && k in Fold(t.log[..b.upTo]).policies
    ensures Path(t, states, steps) && OneAtATime(states, steps) && !Right(states[|steps|])
  {
    CreationIsLegal(t.log);
    CreationCompiles(t.cidr, t.log, c);
    RevivedInLongerLog(st, t.st, t.log, Creation(t.log), t.base, b, c, k);
    states, steps := NextDelta(t, h, c);
  }

  /** A policy that a late bundle brings back stays for good, if further deltas are taken. */
  lemma RevivalBreaks(s: Sync, h: int, k: PolicyKey)
    requires Good(s) && s.handlers.Keys == {h} && Overtaken(s, s.handlers[h])
    requires Replayable(Fold(s.log[..s.checkpoint]), Delta(s.log, s.handlers[h].bundle))
    requires k in Keys(Delta(s.log, s.handlers[h].bundle)) && k in Fold(s.log[..s.handlers[h].bundle.upTo]).policies
    requires Compiles(s.cidr, s.log[s.checkpoint..])
    ensures !StaysRight(s)
  {
    var t := AfterTaken(s, h);
    var states, steps := RevivedIsWrong(s.st, t, s.handlers[h].bundle, h, s.checkpoint, k);
    BreaksAfter(s, Finish(h), states, steps);
  }

  lemma BreaksAtOnce(s: Sync, step: Step)
    requires Enabled(s, step) && !step.Arrive? && !Right(Do(s, step))
    ensures !StaysRight(s)
  {
    var states, steps := [s, Do(s, step)], [step];
    assert StepAt(states, steps, 0);
    assert !KeepsRight(s, states, steps);
  }

  /** A change outside the bundle shows at once. */
  lemma ChangeElsewhereBreaks(s: Sync, h: int)
    requires Good(s) && s.handlers.Keys == {h} && Overtaken(s, s.handlers[h])
    requires Replayable(Fold(s.log[..s.checkpoint]), Delta(s.log, s.handlers[h].bundle))
    requires !SameElsewhere(s.log, s.base, s.handlers[h].bundle, s.checkpoint)
    ensures !StaysRight(s)
  {
    var t := AfterTaken(s, h);
    LateHoldsIff(s.st, s.log, s.base, s.handlers[h].bundle, s.checkpoint, t.st);
    BreaksAtOnce(s, Finish(h));
  }

  /** Any other late bundle does harm, whatever else is in flight. */
  lemma HarmfulBreaks(s: Sync, h: int)
    requires Good(s) && s.handlers.Keys == {h} && !Harmless(s, s.handlers[h])
    ensures !StaysRight(s)
  {
    var b := s.handlers[h].bundle;
    if !SameElsewhere(s.log, s.base, b, s.checkpoint) {
      ChangeElsewhereBreaks(s, h);
    } else {
      var k :| k in Keys(Delta(s.log, b)) && k in Fold(s.log[..b.upTo]).policies;
      RevivalBreaks(s, h, k);
    }
  }

  /** Overlapping handlers, exactly.  In a state that a run without late bundles reaches, let one
      handler be left.  If the bundle of that handler is not harmless, some continuation in which
      handlers run one at a time leaves the gateway with other policies than its checkpoint says.
      If it is harmless and nothing else is in flight, none does. */
  lemma LateBundleHarmlessIff(states: seq<Sync>, steps: seq<Step>, h: int)
    requires Run(states, steps) && NothingTakenLate(states, steps) && states[|steps|].handlers.Keys == {h}
    ensures Good(states[|steps|])
    ensures StaysRight(states[|steps|]) ==> Harmless(states[|steps|], states[|steps|].handlers[h])
    ensures states[|steps|].inFlight == multiset{} && Harmless(states[|steps|], states[|steps|].handlers[h]) ==>
              StaysRight(states[|steps|])
  {
    var s := states[|steps|];
    GoodAlongRun(states, steps, |steps|);
    if !Harmless(s, s.handlers[h]) {
      HarmfulBreaks(s, h);
    } else if s.inFlight == multiset{} {
      HarmlessStaysRight(s, h);
    }
  }

  // ----- such states are reached -----

  lemma Appended(log: seq<Mutation>, m: Mutation)
    requires Legal(log) && LegalNext(Fold(log), m) && m.seqNo == |log| + 1
    ensures Legal(log + [m]) && Fold(log + [m]) == FoldOne(Fold(log), m)
  {
    assert (log + [m])[..|log|] == log;
  }

  lemma RunOn(states: seq<Sync>, steps: seq<Step>, step: Step)
    requires Run(states, steps) && Enabled(states[|steps|], step)
    ensures Run(states + [Do(states[|steps|], step)], steps + [step])
  {
    var t := Do(states[|steps|], step);
    var states', steps' := states + [t], steps + [step];
    assert states'[0] == states[0];
    forall i | 0 <= i < |steps'| ensures StepAt(states', steps', i) {
      if i < |steps| {
        assert StepAt(states, steps, i);
        assert states'[i] == states[i] && steps'[i] == steps[i] && states'[i + 1] == states[i + 1];
      }
    }
  }

  lemma Taken(states: seq<Sync>, steps: seq<Step>, step: Step) returns (states': seq<Sync>, steps': seq<Step>)
    requires Run(states, steps) && NothingTakenLate(states, steps) && Enabled(states[|steps|], step)
    requires !TakesLate(states[|steps|], step)
    ensures Run(states', steps') && NothingTakenLate(states', steps')
    ensures states'[|steps'|] == Do(states[|steps|], step)
  {
    RunOn(states, steps, step);
    states', steps' := states + [Do(states[|steps|], step)], steps + [step];
    forall i | 0 <= i < |steps'| ensures TimelyAt(states', steps', i) {
      assert StepAt(states', steps', i) && (i < |steps| ==> TimelyAt(states, steps, i));
      assert states'[i] == states[i];
      assert i < |steps| ==> steps'[i] == steps[i];
    }
  }

  function Named(id: string, version: int): Rule {
    Rule(id, "", "", "", "", Unspecified, 0, version, true, "", None, None, None)
  }

  const CREATE_Q := Mutation(1, Upsert, Named("q", 1))
  const CREATE_P := Mutation(2, Upsert, Named("p", 1))
  const DELETE_P := Mutation(3, Delete, Named("p", 0))

  lemma ThreeMutations()
    ensures Legal([CREATE_Q]) && Legal([CREATE_Q] + [CREATE_P]) && Legal([CREATE_Q] + [CREATE_P] + [DELETE_P])
    ensures var p := Key(CREATE_P.rule);
            && p in Fold([CREATE_Q] + [CREATE_P]).policies && p in Fold([CREATE_Q] + [CREATE_P] + [DELETE_P]).tombs
  {
    assert Legal([]) && [] + [CREATE_Q] == [CREATE_Q];
    Appended([], CREATE_Q);
    Appended([CREATE_Q], CREATE_P);
    Appended([CREATE_Q] + [CREATE_P], DELETE_P);
  }

  function Early(cidr: Cidr, log: seq<Mutation>, inFlight: multiset<Bundle>, handlers: map<int, Handler>): Sync {
    Sync(cidr, log, 1, Buckets(SnapshotOf(Fold([CREATE_Q])), map[]), 1, {1}, inFlight, handlers)
  }

  lemma BothSent(cidr: Cidr) returns (states: seq<Sync>, steps: seq<Step>)
    ensures Run(states, steps) && NothingTakenLate(states, steps)
    ensures states[|steps|] ==
            Early(cidr, [CREATE_Q] + [CREATE_P] + [DELETE_P], multiset{Bundle(1, 2)} + multiset{Bundle(1, 3)}, map[])
  {
    ThreeMutations();
    var none: multiset<Bundle> := multiset{};
    var s0 := Early(cidr, [CREATE_Q], none, map[]);
    assert [CREATE_Q][..1] == [CREATE_Q];
    states, steps := [s0], [];
    states, steps := Taken(states, steps, Mutate(CREATE_P));
    states, steps := Taken(states, steps, Send(1));
    assert none + multiset{Bundle(1, 2)} == multiset{Bundle(1, 2)};
    states, steps := Taken(states, steps, Mutate(DELETE_P));
    states, steps := Taken(states, steps, Send(1));
  }

  lemma BothReadCheckpoint(cidr: Cidr) returns (states: seq<Sync>, steps: seq<Step>)
    ensures Run(states, steps) && NothingTakenLate(states, steps)
    ensures states[|steps|] ==
            Early(cidr, [CREATE_Q] + [CREATE_P] + [DELETE_P], multiset{},
                  map[1 := Handler(Bundle(1, 2), 1), 2 := Handler(Bundle(1, 3), 1)])
  {
    states, steps := BothSent(cidr);
    var b2, b3 := Bundle(1, 2), Bundle(1, 3);
    states, steps := Taken(states, steps, Arrive(1, b2));
    assert multiset{b2} + multiset{b3} - multiset{b2} == multiset{b3};
    states, steps := Taken(states, steps, Arrive(2, b3));
    assert multiset{b3} - multiset{b3} == multiset{};
    assert (map[])[1 := Handler(b2, 1)][2 := Handler(b3, 1)] == map[1 := Handler(b2, 1), 2 := Handler(b3, 1)];
  }

  /** The bundle that creates P is late once its deletion is known. */
  lemma CreationIsHarmful(states: seq<Sync>, steps: seq<Step>, log: seq<Mutation>)
    requires Run(states, steps) && NothingTakenLate(states, steps)
    requires log == [CREATE_Q] + [CREATE_P] + [DELETE_P] && states[|steps|].log == log && states[|steps|].base == 1
    requires states[|steps|].checkpoint == 3 && states[|steps|].inFlight == multiset{}
    requires states[|steps|].handlers == map[1 := Handler(Bundle(1, 2), 1)]
    ensures !StaysRight(states[|steps|])
  {
    ThreeMutations();
    assert log[..3] == log && log[..2] == [CREATE_Q] + [CREATE_P];
    var delta := Delta(log, Bundle(1, 2));
    assert delta == [CREATE_P];
    assert Key(delta[0].rule) in Keys(delta);
    LateBundleHarmlessIff(states, steps, 1);
    assert Replayable(Fold(log), delta) && Compiles(states[|steps|].cidr, log[3..]);
    assert !EndsDead(log, Bundle(1, 2));
  }

  lemma LongerIsTaken(s: Sync)
    requires Good(s) && s.log == [CREATE_Q] + [CREATE_P] + [DELETE_P] && s.base == 1 && s.checkpoint == 1
    ensures Take(s.cidr, s.st, Delta(s.log, Bundle(1, 3))).Some?
  {
    DeliverIff(s.cidr, s.st, s.log, 1, 1, 1, 3);
    assert s.log[1..1] == [] && Replayable(Fold(s.log[..1]), []);
  }

  /** The longer bundle is taken first. */
  lemma LongerFirst(states: seq<Sync>, steps: seq<Step>) returns (states': seq<Sync>, steps': seq<Step>)
    requires Run(states, steps) && NothingTakenLate(states, steps)
    requires var s := states[|steps|];
             && s.log == [CREATE_Q] + [CREATE_P] + [DELETE_P] && s.base == 1 && s.checkpoint == 1
             && s.inFlight == multiset{} && 2 in s.handlers && s.handlers[2] == Handler(Bundle(1, 3), 1)
    ensures Run(states', steps') && NothingTakenLate(states', steps')
    ensures var s, t := states[|steps|], states'[|steps'|];
            && t.log == s.log && t.base == 1 && t.checkpoint == 3 && t.inFlight == multiset{}
            && t.handlers == s.handlers - {2}
  {
    GoodAlongRun(states, steps, |steps|);
    LongerIsTaken(states[|steps|]);
    states', steps' := Taken(states, steps, Finish(2));
  }

  /** A policy is created and deleted again while the gateway stands at 1; the handlers of the
      bundles (1, 2] and (1, 3] both read checkpoint 1, and the longer one finishes first.  The
      other one is then not harmless: it brings the deleted policy back. */
  lemma LateBundleRevivesPolicy(cidr: Cidr) returns (states: seq<Sync>, steps: seq<Step>)
    ensures Run(states, steps) && NothingTakenLate(states, steps)
    ensures !StaysRight(states[|steps|])
  {
    states, steps := BothReadCheckpoint(cidr);
    var s := states[|steps|];
    states, steps := LongerFirst(states, steps);
    var h2 := Handler(Bundle(1, 2), 1);
    assert s.handlers - {2} == map[1 := h2];
    CreationIsHarmful(states, steps, s.log);
  }
}
