/**
 The gateway's policy engine (internal/gateway/policy/engine.go) and the handler of policy
 bundles (handlePolicyUpdate in internal/gateway/grpc_client/stream.go): verify, compile,
 persist, reload, publish, acknowledge.
 */
module Engine {
  import opened Wrappers
  import opened Rules
  import opened Decisions
  import opened PolicyLog

  datatype PolicyBundle = PolicyBundle(records: seq<Mutation>, lastSeq: int)

  /** Signature checks with the control plane's key; cryptography is not modelled. */
  datatype Verifier = Verifier(
    recordOk: Mutation -> bool, bundleOk: PolicyBundle -> bool, storedOk: Rule -> bool)

  // ----- listings of the store -----

  ghost predicate WellKeyed(pols: map<PolicyKey, Rule>) {
    forall k | k in pols :: Key(pols[k]) == k
  }

  ghost predicate AllCompile(cidr: Cidr, pols: map<PolicyKey, Rule>) {
    forall k | k in pols :: CidrsParse(cidr, pols[k])
  }

  /** Every stored policy once, in some order. */
  ghost predicate Listing(rules: seq<Rule>, pols: map<PolicyKey, Rule>) {
    && (forall i | 0 <= i < |rules| :: Key(rules[i]) in pols && pols[Key(rules[i])] == rules[i])
    && (forall i, j | 0 <= i < j < |rules| :: Key(rules[i]) != Key(rules[j]))
    && (forall k | k in pols :: pols[k] in rules)
  }

  lemma {:induction false} ApplyKeepsStore(cidr: Cidr, st: Buckets, ms: seq<Mutation>)
    requires WellKeyed(st.policies) && AllCompile(cidr, st.policies)
    requires forall i | 0 <= i < |ms| :: CidrsParse(cidr, ms[i].rule)
    requires ApplyAll(st, ms).Some?
    ensures WellKeyed(ApplyAll(st, ms).value.policies) && AllCompile(cidr, ApplyAll(st, ms).value.policies)
    decreases |ms|
  {
    if ms != [] {
      ApplyKeepsStore(cidr, st, ms[..|ms| - 1]);
    }
  }

  /** LoadAllRecords. */
  method LoadAll(pols: map<PolicyKey, Rule>) returns (rules: seq<Rule>)
    requires WellKeyed(pols)
    ensures Listing(rules, pols)
  {
    rules := [];
    var todo := pols.Keys;
    while todo != {}
      invariant todo <= pols.Keys
      invariant forall i | 0 <= i < |rules| ::
                  Key(rules[i]) in pols && Key(rules[i]) !in todo && pols[Key(rules[i])] == rules[i]
      invariant forall i, j | 0 <= i < j < |rules| :: Key(rules[i]) != Key(rules[j])
      invariant forall k | k in pols && k !in todo :: pols[k] in rules
    {
      var k :| k in todo;
      rules := rules + [pols[k]];
      todo := todo - {k};
    }
  }

  lemma {:induction false} NothingSkipped(cidr: Cidr, rules: seq<Rule>)
    requires forall i | 0 <= i < |rules| :: CidrsParse(cidr, rules[i])
    ensures |CompiledAll(cidr, rules)| == |rules|
    ensures forall i | 0 <= i < |rules| :: CompiledAll(cidr, rules)[i] == Compiled(cidr, rules[i])
    decreases |rules|
  {
    if rules != [] {
      NothingSkipped(cidr, rules[..|rules| - 1]);
    }
  }

  /** The verdict on a stored policy set does not depend on how it is listed. */
  lemma ListingsAgree(w: World, pols: map<PolicyKey, Rule>, a: seq<Rule>, b: seq<Rule>, req: Request, d: Decision)
    requires Listing(a, pols) && Listing(b, pols) && Verdict(w, CompiledAll(w.cidr, a), req, d)
    ensures Verdict(w, CompiledAll(w.cidr, b), req, d)
  {
    forall r ensures r in a <==> r in b {
      if r in a {
        var i :| 0 <= i < |a| && a[i] == r;
        assert pols[Key(r)] in b;
      }
      if r in b {
        var i :| 0 <= i < |b| && b[i] == r;
        assert pols[Key(r)] in a;
      }
    }
    forall cp ensures cp in CompiledAll(w.cidr, a) <==> cp in CompiledAll(w.cidr, b) {
      CompiledAllMembers(w.cidr, a, cp);
      CompiledAllMembers(w.cidr, b, cp);
    }
    SameMembersSameVerdict(w, CompiledAll(w.cidr, a), CompiledAll(w.cidr, b), req, d);
  }

  /** Whether the signatures stored with all policies verify. */
  method VerifyStored(verifier: Verifier, rules: seq<Rule>, ghost pols: map<PolicyKey, Rule>) returns (ok: bool)
    requires Listing(rules, pols)
    ensures ok <==> forall k | k in pols :: verifier.storedOk(pols[k])
  {
    for i := 0 to |rules|
      invariant forall j | 0 <= j < i :: verifier.storedOk(rules[j])
    {
      if !verifier.storedOk(rules[i]) {
        assert Key(rules[i]) in pols;
        return false;
      }
    }
    ok := true;
  }

  method VerifyRecords(verifier: Verifier, records: seq<Mutation>) returns (ok: bool)
    ensures ok <==> forall i | 0 <= i < |records| :: verifier.recordOk(records[i])
  {
    for i := 0 to |records|
      invariant forall j | 0 <= j < i :: verifier.recordOk(records[j])
    {
      if !verifier.recordOk(records[i]) {
        return false;
      }
    }
    ok := true;
  }

  method CompileRecords(cidr: Cidr, records: seq<Mutation>) returns (ok: bool)
    ensures ok <==> forall i | 0 <= i < |records| :: CidrsParse(cidr, records[i].rule)
  {
    for i := 0 to |records|
      invariant forall j | 0 <= j < i :: CidrsParse(cidr, records[j].rule)
    {
      var c := Compile(cidr, records[i].rule);
      if c.Err? {
        return false;
      }
    }
    ok := true;
  }

  class PolicyEngine {
    const world: World
    const verifier: Option<Verifier>
    const store: BoltStore
    var index: Index
    var version: int
    /** Whether the bootstrap went through; an engine that did not is not used. */
    const started: bool
    /** The rules the published index was built from. */
    ghost var published: seq<Rule>

    /** The index is built from `published`; only policies that compile are stored, so
        nothing is ever skipped. */
    ghost predicate Valid()
      reads this, store
    {
      && IndexOf(index, CompiledAll(world.cidr, published))
      && (forall i | 0 <= i < |published| :: CidrsParse(world.cidr, published[i]))
      && WellKeyed(store.policies) && AllCompile(world.cidr, store.policies)
      && 0 <= store.checkpoint
    }

    /** The index serves exactly what is stored. */
    ghost predicate InSync()
      reads this, store
    {
      Listing(published, store.policies)
    }

    /** Start on a store that an engine left behind (or on an empty one).  The bootstrap fails if
        the store cannot be read, or, when it holds policies, if the signature of one does not
        verify.  With no stored policy the version stays 0 whatever the checkpoint says. */
    constructor (world: World, verifier: Option<Verifier>, store: BoltStore, readOk: bool)
      requires WellKeyed(store.policies) && AllCompile(world.cidr, store.policies) && store.checkpoint >= 0
      ensures started <==>
                && readOk
                && (verifier.Some? ==> forall k | k in store.policies :: verifier.value.storedOk(store.policies[k]))
      ensures started ==>
                && Valid() && InSync() && this.store == store && this.world == world && this.verifier == verifier
                && version == if store.policies == map[] then 0 else store.checkpoint
    {
      var ok := readOk;
      var rules := LoadAll(store.policies);
      if verifier.Some? {
        var verified := VerifyStored(verifier.value, rules, store.policies);
        ok := ok && verified;
      }
      var idx := BuildIndex(world.cidr, rules);
      ListingCompiles(world.cidr, rules, store.policies);
      this.world, this.verifier, this.store := world, verifier, store;
      index, published := idx, rules;
      version := if rules == [] then 0 else store.checkpoint;
      started := ok;
      assert rules == [] <==> store.policies == map[];
    }

    /** Verify every record, compile every rule, persist all or nothing, reload, publish.
        `loadFails` says whether reading the store back fails after the commit. */
    method UpdatePolicies(records: seq<Mutation>, lastSeq: int, loadFails: bool) returns (ok: bool)
      requires Valid() && lastSeq >= 0
      modifies this, store
      ensures Valid() && ok == (Accepts(old(store.State()), records) && !loadFails)
      ensures store.State() == (if Accepts(old(store.State()), records) then ApplyAll(old(store.State()), records).value
                                else old(store.State()))
      ensures store.checkpoint == (if Accepts(old(store.State()), records) then lastSeq else old(store.checkpoint))
      ensures ok ==> InSync() && version == lastSeq
      ensures !ok ==> index == old(index) && published == old(published) && version == old(version)
    {
      if verifier.Some? {
        ok := VerifyRecords(verifier.value, records);
        if !ok {
          return;
        }
      }
      ok := CompileRecords(world.cidr, records);
      if !ok {
        return;
      }
      ghost var before := store.State();
      var stored := store.ApplyDelta(records, lastSeq);
      if !stored {
        return false;
      }
      ApplyKeepsStore(world.cidr, before, records);
      if loadFails {
        return false;
      }
      var rules := LoadAll(store.policies);
      var idx := BuildIndex(world.cidr, rules);
      ListingCompiles(world.cidr, rules, store.policies);
      index, version, published := idx, lastSeq, rules;
      ok := true;
    }

    /** What UpdatePolicies requires of a delta before anything is written. */
    ghost predicate Accepts(st: Buckets, records: seq<Mutation>)
    {
      && (verifier.Some? ==> forall i | 0 <= i < |records| :: verifier.value.recordOk(records[i]))
      && (forall i | 0 <= i < |records| :: CidrsParse(world.cidr, records[i].rule))
      && ApplyAll(st, records).Some?
    }

    /** A record whose signature or whose networks do not pass. */
    ghost predicate BadRecord(records: seq<Mutation>) {
      exists m | m in records ::
        || (verifier.Some? && !verifier.value.recordOk(m))
        || (m.rule.conditions.Some? && m.rule.conditions.value.network.Some? &&
            var net := m.rule.conditions.value.network.value;
            exists t | t in net.allowedCidrs || t in net.blockedCidrs :: world.cidr.parse(t).None?)
    }

    ghost predicate Trusted(bundle: PolicyBundle)
    {
      verifier.Some? ==> verifier.value.bundleOk(bundle)
    }

    method ApplyVerifiedDelta(bundle: PolicyBundle, loadFails: bool) returns (ok: bool)
      requires Valid() && bundle.lastSeq >= 0
      modifies this, store
      ensures var taken := Trusted(bundle) && Accepts(old(store.State()), bundle.records);
              && Valid() && ok == (taken && !loadFails)
              && store.State() ==
                 (if taken then ApplyAll(old(store.State()), bundle.records).value else old(store.State()))
              && store.checkpoint == (if taken then bundle.lastSeq else old(store.checkpoint))
      ensures ok ==> InSync() && version == bundle.lastSeq
      ensures !ok ==> index == old(index) && published == old(published) && version == old(version)
    {
      if verifier.Some? && !verifier.value.bundleOk(bundle) {
        return false;
      }
      ok := UpdatePolicies(bundle.records, bundle.lastSeq, loadFails);
    }

    /** One bundle, handled on its own; `readOk` says whether the checkpoint could be read, a
        failed read counts as checkpoint 0; `queueFull` that the acknowledgement finds no room in
        the send queue.  A bundle that is not newer than the checkpoint read changes nothing, a
        refused one changes neither store nor index, and what is acknowledged is always the
        checkpoint then stored.  Checkpoint and version go back only when the read failed and an
        older bundle is taken. */
    method HandlePolicyUpdate(bundle: PolicyBundle, readOk: bool, loadFails: bool, queueFull: bool)
      returns (ack: Option<int>)
      requires Valid()
      modifies this, store
      ensures var seen := if readOk then old(store.checkpoint) else 0;
              var taken := bundle.lastSeq > seen && Trusted(bundle) && Accepts(old(store.State()), bundle.records);
              && Valid()
              && (!taken ==> store.State() == old(store.State()) && store.checkpoint == old(store.checkpoint)
                             && index == old(index) && version == old(version))
              && (taken ==> store.State() == ApplyAll(old(store.State()), bundle.records).value
                            && store.checkpoint == bundle.lastSeq)
              && (taken && !loadFails ==> InSync() && version == bundle.lastSeq)
              && (taken && loadFails ==> index == old(index) && version == old(version))
              && (ack.Some? <==> !queueFull && (if bundle.lastSeq > seen then taken && !loadFails else seen > 0))
              && (store.checkpoint < old(store.checkpoint) <==>
                    !readOk && taken && bundle.lastSeq < old(store.checkpoint))
      ensures (verifier.Some? && !verifier.value.bundleOk(bundle)) || BadRecord(bundle.records) ==>
                store.State() == old(store.State()) && store.checkpoint == old(store.checkpoint)
                && index == old(index) && version == old(version)
      ensures ack.Some? ==> ack.value == store.checkpoint && ack.value > 0
      ensures old(InSync()) && !loadFails ==> InSync()
      ensures readOk && old(version) <= old(store.checkpoint) ==> old(version) <= version <= store.checkpoint
    {
      var checkpoint := if readOk then store.checkpoint else 0;
      var lastSeq := bundle.lastSeq;
      if lastSeq > checkpoint {
        var ok := ApplyVerifiedDelta(bundle, loadFails);
        if !ok {
          return None;
        }
      } else if checkpoint > 0 {
        lastSeq := checkpoint;
      }
      ack := if lastSeq > 0 && !queueFull then Some(lastSeq) else None;
    }

    /** A decision reads the published index and nothing else. */
    method Decide(req: Request) returns (d: Decision)
      requires Valid()
      ensures Verdict(world, CompiledAll(world.cidr, published), req, d)
    {
      d := Evaluate(world, index, CompiledAll(world.cidr, published), req);
    }
  }

  lemma ListingCompiles(cidr: Cidr, rules: seq<Rule>, pols: map<PolicyKey, Rule>)
    requires Listing(rules, pols) && AllCompile(cidr, pols)
    ensures forall i | 0 <= i < |rules| :: CidrsParse(cidr, rules[i])
    ensures rules == [] <==> pols == map[]
  {
    if rules != [] {
      assert Key(rules[0]) in pols;
    }
    if k :| k in pols {
      assert pols[k] in rules;
    }
  }

  /** While index and store agree, a decision is the flat verdict on the stored policies,
      every one of them compiled, in whatever order they are listed. */
  lemma DecisionIsOnStoredPolicies(e: PolicyEngine, rules: seq<Rule>, req: Request, d: Decision)
    requires e.Valid() && e.InSync() && Listing(rules, e.store.policies)
    requires Verdict(e.world, CompiledAll(e.world.cidr, e.published), req, d)
    ensures Verdict(e.world, CompiledAll(e.world.cidr, rules), req, d)
    ensures |CompiledAll(e.world.cidr, rules)| == |rules|
  {
    ListingsAgree(e.world, e.store.policies, e.published, rules, req, d);
    ListingCompiles(e.world.cidr, rules, e.store.policies);
    NothingSkipped(e.world.cidr, rules);
  }
}
