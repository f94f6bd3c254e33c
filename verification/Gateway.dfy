/**
 A gateway as a whole: its engine runs the policy protocol, and its decisions are verdicts on the
 control plane's mutation log (handlePolicyUpdate in internal/gateway/grpc_client/stream.go,
 ApplyVerifiedDelta and Evaluate in internal/gateway/policy/engine.go).
 */
module Gateway {
  import opened Wrappers
  import opened Rules
  import opened Decisions
  import opened PolicyLog
  import opened Engine
  import opened PolicySync

  /** The engine's store is the gateway's store in the protocol. */
  ghost predicate Runs(e: PolicyEngine, s: Sync)
    reads e, e.store
  {
    e.Valid() && e.world.cidr == s.cidr && e.store.State() == s.st && e.store.checkpoint == s.checkpoint
  }

  /** The bundle and its records carry signatures of the control plane. */
  ghost predicate Signed(e: PolicyEngine, bundle: PolicyBundle) {
    e.Trusted(bundle) && (e.verifier.Some? ==>
                            forall i | 0 <= i < |bundle.records| :: e.verifier.value.recordOk(bundle.records[i]))
  }

  lemma AcceptsWhatItTakes(e: PolicyEngine, st: Buckets, bundle: PolicyBundle)
    requires Signed(e, bundle)
    ensures e.Accepts(st, bundle.records) <==> Take(e.world.cidr, st, bundle.records).Some?
    ensures e.Accepts(st, bundle.records) ==>
              ApplyAll(st, bundle.records) == Take(e.world.cidr, st, bundle.records)
  {
  }

  /** The engine's handler, run on its own on a signed bundle of the protocol, does to store and
      checkpoint exactly what the protocol's handler does; index and store stay in agreement. */
  method HandleDelta(e: PolicyEngine, ghost s: Sync, ghost b: Bundle, bundle: PolicyBundle, queueFull: bool)
    returns (ack: Option<int>)
    requires Runs(e, s) && WellCut(s.log, b) && bundle == PolicyBundle(Delta(s.log, b), b.upTo) && Signed(e, bundle)
    modifies e, e.store
    ensures Runs(e, Finished(s, Handler(b, s.checkpoint)))
    ensures old(e.InSync()) ==> e.InSync()
    ensures ack.Some? ==> ack.value == e.store.checkpoint
  {
    AcceptsWhatItTakes(e, e.store.State(), bundle);
    ack := e.HandlePolicyUpdate(bundle, true, false, queueFull);
  }

  /** A decision of the gateway is the flat verdict on the policies of the log up to its
      checkpoint (but for untouched ones that were disabled at its first snapshot), listed in any
      order and none of them skipped. */
  ghost predicate OnTheLog(e: PolicyEngine, s: Sync, req: Request, d: Decision)
    requires s.base <= s.checkpoint <= |s.log|
  {
    forall rules | Listing(rules, Held(s.log, s.base, s.checkpoint)) ::
      && Verdict(e.world, CompiledAll(e.world.cidr, rules), req, d)
      && |CompiledAll(e.world.cidr, rules)| == |rules|
  }

  /** In every run of the protocol in which no overtaken bundle is taken, in particular if its
      handlers run one at a time, every decision is on the log. */
  method DecideOnTheLog(e: PolicyEngine, ghost states: seq<Sync>, ghost steps: seq<Step>, ghost i: nat, req: Request)
    returns (d: Decision)
    requires Run(states, steps) && NothingTakenLate(states, steps) && i < |states|
    requires Runs(e, states[i]) && e.InSync()
    ensures states[i].base <= states[i].checkpoint <= |states[i].log| && OnTheLog(e, states[i], req, d)
  {
    d := e.Decide(req);
    GatewayIsAlwaysAPrefix(states, steps, i);
    VerdictIsOnTheLog(e, states[i], req, d);
  }

  lemma VerdictIsOnTheLog(e: PolicyEngine, s: Sync, req: Request, d: Decision)
    requires Runs(e, s) && e.InSync() && Right(s)
    requires Verdict(e.world, CompiledAll(e.world.cidr, e.published), req, d)
    ensures OnTheLog(e, s, req, d)
  {
    assert e.store.policies == s.st.policies;
    forall rules | Listing(rules, Held(s.log, s.base, s.checkpoint))
      ensures Verdict(e.world, CompiledAll(e.world.cidr, rules), req, d)
      ensures |CompiledAll(e.world.cidr, rules)| == |rules|
    {
      DecisionIsOnStoredPolicies(e, rules, req, d);
    }
  }

  ghost predicate Says(w: World, r: Rule, req: Request, eff: Effect) {
    CidrsParse(w.cidr, r) && Compiled(w.cidr, r).effect == eff && Applies(w, Compiled(w.cidr, r), req)
  }

  ghost predicate SomeSays(w: World, pols: map<PolicyKey, Rule>, req: Request, eff: Effect) {
    exists k | k in pols :: Says(w, pols[k], req, eff)
  }

  lemma MatchInListing(w: World, rules: seq<Rule>, pols: map<PolicyKey, Rule>, req: Request, eff: Effect)
    requires Listing(rules, pols)
    ensures HasMatch(w, CompiledAll(w.cidr, rules), req, eff) <==> SomeSays(w, pols, req, eff)
  {
    if HasMatch(w, CompiledAll(w.cidr, rules), req, eff) {
      var cp :| cp in CompiledAll(w.cidr, rules) && cp.effect == eff && Applies(w, cp, req);
      CompiledAllMembers(w.cidr, rules, cp);
      var r :| r in rules && CidrsParse(w.cidr, r) && cp == Compiled(w.cidr, r);
      assert Says(w, pols[Key(r)], req, eff);
    }
    if SomeSays(w, pols, req, eff) {
      var k :| k in pols && Says(w, pols[k], req, eff);
      CompiledAllMembers(w.cidr, rules, Compiled(w.cidr, pols[k]));
    }
  }

  /** The effect follows from the log alone: ALLOW iff some policy of the log up to the
      checkpoint allows and none denies. */
  lemma EffectOnTheLog(e: PolicyEngine, s: Sync, req: Request, d: Decision)
    requires Runs(e, s) && e.InSync() && Right(s) && OnTheLog(e, s, req, d)
    ensures var held := Held(s.log, s.base, s.checkpoint);
            d.effect == EffectAllow <==>
            SomeSays(e.world, held, req, EffectAllow) && !SomeSays(e.world, held, req, EffectDeny)
  {
    var held := Held(s.log, s.base, s.checkpoint);
    assert Listing(e.published, held);
    MatchInListing(e.world, e.published, held, req, EffectAllow);
    MatchInListing(e.world, e.published, held, req, EffectDeny);
  }
}
