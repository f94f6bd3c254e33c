/**
 The gateway's two-level policy index and its decision (buildIndex and Evaluate in
 internal/gateway/policy/engine.go), against a flat scan over every compiled policy:
 DENY overrides ALLOW, the default is DENY, and priority only picks the policy reported.
 */
module Decisions {
  import opened Wrappers
  import opened Rules

  datatype Index = Index(
    byTenantApp: map<string, map<string, seq<CompiledPolicy>>>,
    global: map<string, seq<CompiledPolicy>>)

  /** How the engine sees the world besides its index. */
  datatype World = World(cidr: Cidr, schedules: set<string>)

  datatype Decision = Decision(
    effect: Effect, policyId: string, mutationId: string, reason: string, version: int,
    userId: string, appId: string, tenantId: string)

  // ----- what the index must hold -----

  /** The rules that compile, in order; the others are skipped. */
  function CompiledAll(cidr: Cidr, rules: seq<Rule>): seq<CompiledPolicy> {
    if rules == [] then []
    else
      var n := |rules| - 1;
      CompiledAll(cidr, rules[..n]) + (if CidrsParse(cidr, rules[n]) then [Compiled(cidr, rules[n])] else [])
  }

  predicate IsGlobal(cp: CompiledPolicy) {
    cp.appIds == {} || "*" in cp.appIds
  }

  function GlobalsOf(cps: seq<CompiledPolicy>, tenant: string): seq<CompiledPolicy> {
    if cps == [] then []
    else
      var n := |cps| - 1;
      GlobalsOf(cps[..n], tenant) + (if cps[n].tenantId == tenant && IsGlobal(cps[n]) then [cps[n]] else [])
  }

  function ForApp(cps: seq<CompiledPolicy>, tenant: string, app: string): seq<CompiledPolicy> {
    if cps == [] then []
    else
      var n := |cps| - 1;
      ForApp(cps[..n], tenant, app)
      + (if cps[n].tenantId == tenant && !IsGlobal(cps[n]) && app in cps[n].appIds then [cps[n]] else [])
  }

  function Globals(idx: Index, tenant: string): seq<CompiledPolicy> {
    if tenant in idx.global then idx.global[tenant] else []
  }

  function AppPolicies(idx: Index, tenant: string, app: string): seq<CompiledPolicy> {
    if tenant in idx.byTenantApp && app in idx.byTenantApp[tenant] then idx.byTenantApp[tenant][app] else []
  }

  ghost predicate IndexOf(idx: Index, cps: seq<CompiledPolicy>) {
    && (forall t :: Globals(idx, t) == GlobalsOf(cps, t))
    && (forall t, a :: AppPolicies(idx, t, a) == ForApp(cps, t, a))
  }

  lemma LastAppended(cps: seq<CompiledPolicy>, cp: CompiledPolicy)
    ensures forall t :: GlobalsOf(cps + [cp], t) ==
              GlobalsOf(cps, t) + if cp.tenantId == t && IsGlobal(cp) then [cp] else []
    ensures forall t, a :: ForApp(cps + [cp], t, a) ==
              ForApp(cps, t, a) + if cp.tenantId == t && !IsGlobal(cp) && a in cp.appIds then [cp] else []
  {
    assert (cps + [cp])[..|cps|] == cps;
  }

  /** One map level of the index: what is filed for an application. */
  function Filed(apps: map<string, seq<CompiledPolicy>>, app: string): seq<CompiledPolicy> {
    if app in apps then apps[app] else []
  }

  /** What the tenant's map holds when a policy has been filed under some of its applications. */
  ghost predicate FiledUnder(apps: map<string, seq<CompiledPolicy>>, cps: seq<CompiledPolicy>, cp: CompiledPolicy,
                             done: set<string>)
  {
    forall a :: Filed(apps, a) == ForApp(cps, cp.tenantId, a) + if a in done then [cp] else []
  }

  lemma FileOne(apps: map<string, seq<CompiledPolicy>>, cps: seq<CompiledPolicy>, cp: CompiledPolicy,
                done: set<string>, app: string)
    requires FiledUnder(apps, cps, cp, done) && app !in done
    ensures FiledUnder(apps[app := Filed(apps, app) + [cp]], cps, cp, done + {app})
  {
    var more := apps[app := Filed(apps, app) + [cp]];
    forall a ensures Filed(more, a) == ForApp(cps, cp.tenantId, a) + if a in done + {app} then [cp] else [] {
      assert Filed(apps, a) == ForApp(cps, cp.tenantId, a) + if a in done then [cp] else [];
      if a == app {
        assert ForApp(cps, cp.tenantId, a) + [] == ForApp(cps, cp.tenantId, a);
      }
    }
  }

  lemma NothingFiled(idx: Index, apps: map<string, seq<CompiledPolicy>>, cps: seq<CompiledPolicy>, cp: CompiledPolicy)
    requires IndexOf(idx, cps)
    requires apps == if cp.tenantId in idx.byTenantApp then idx.byTenantApp[cp.tenantId] else map[]
    ensures FiledUnder(apps, cps, cp, {})
  {
    forall a ensures Filed(apps, a) == ForApp(cps, cp.tenantId, a) + [] {
      assert Filed(apps, a) == AppPolicies(idx, cp.tenantId, a) == ForApp(cps, cp.tenantId, a);
    }
  }

  lemma FiledAt(idx: Index, cps: seq<CompiledPolicy>, cp: CompiledPolicy,
                apps: map<string, seq<CompiledPolicy>>, t: string, a: string)
    requires IndexOf(idx, cps) && !IsGlobal(cp) && FiledUnder(apps, cps, cp, cp.appIds)
    ensures AppPolicies(idx.(byTenantApp := idx.byTenantApp[cp.tenantId := apps]), t, a) == ForApp(cps + [cp], t, a)
  {
    var r := idx.(byTenantApp := idx.byTenantApp[cp.tenantId := apps]);
    LastAppended(cps, cp);
    if t == cp.tenantId {
      assert AppPolicies(r, t, a) == Filed(apps, a);
    } else {
      assert AppPolicies(r, t, a) == AppPolicies(idx, t, a) == ForApp(cps, t, a);
      assert ForApp(cps, t, a) + [] == ForApp(cps, t, a);
    }
  }

  lemma FiledIsIndexed(idx: Index, cps: seq<CompiledPolicy>, cp: CompiledPolicy,
                       apps: map<string, seq<CompiledPolicy>>)
    requires IndexOf(idx, cps) && !IsGlobal(cp) && FiledUnder(apps, cps, cp, cp.appIds)
    ensures IndexOf(idx.(byTenantApp := idx.byTenantApp[cp.tenantId := apps]), cps + [cp])
  {
    var r := idx.(byTenantApp := idx.byTenantApp[cp.tenantId := apps]);
    forall t, a ensures AppPolicies(r, t, a) == ForApp(cps + [cp], t, a) {
      FiledAt(idx, cps, cp, apps, t, a);
    }
    LastAppended(cps, cp);
    forall t ensures Globals(r, t) == GlobalsOf(cps + [cp], t) {
      assert Globals(r, t) == Globals(idx, t) == GlobalsOf(cps, t);
      assert GlobalsOf(cps, t) + [] == GlobalsOf(cps, t);
    }
  }

  /** Files one policy under each of its applications. */
  method FileUnderApps(idx: Index, ghost cps: seq<CompiledPolicy>, cp: CompiledPolicy) returns (r: Index)
    requires IndexOf(idx, cps) && !IsGlobal(cp)
    ensures IndexOf(r, cps + [cp])
  {
    var t := cp.tenantId;
    var apps: map<string, seq<CompiledPolicy>> := if t in idx.byTenantApp then idx.byTenantApp[t] else map[];
    NothingFiled(idx, apps, cps, cp);
    var todo := cp.appIds;
    while todo != {}
      invariant todo <= cp.appIds && FiledUnder(apps, cps, cp, cp.appIds - todo)
    {
      var app :| app in todo;
      FileOne(apps, cps, cp, cp.appIds - todo, app);
      assert cp.appIds - (todo - {app}) == (cp.appIds - todo) + {app};
      apps := apps[app := Filed(apps, app) + [cp]];
      todo := todo - {app};
    }
    assert cp.appIds - todo == cp.appIds;
    FiledIsIndexed(idx, cps, cp, apps);
    r := idx.(byTenantApp := idx.byTenantApp[t := apps]);
  }

  lemma GlobalIsIndexed(idx: Index, cps: seq<CompiledPolicy>, cp: CompiledPolicy)
    requires IndexOf(idx, cps) && IsGlobal(cp)
    ensures IndexOf(idx.(global := idx.global[cp.tenantId := Globals(idx, cp.tenantId) + [cp]]), cps + [cp])
  {
    var r := idx.(global := idx.global[cp.tenantId := Globals(idx, cp.tenantId) + [cp]]);
    LastAppended(cps, cp);
    forall t, a ensures AppPolicies(r, t, a) == ForApp(cps + [cp], t, a) {
      assert AppPolicies(r, t, a) == AppPolicies(idx, t, a) == ForApp(cps, t, a) + [];
    }
    forall t ensures Globals(r, t) == GlobalsOf(cps + [cp], t) {
      assert GlobalsOf(cps, t) + [] == GlobalsOf(cps, t) == Globals(idx, t);
    }
  }

  method BuildIndex(cidr: Cidr, rules: seq<Rule>) returns (idx: Index)
    ensures IndexOf(idx, CompiledAll(cidr, rules))
  {
    idx := Index(map[], map[]);
    for i := 0 to |rules|
      invariant IndexOf(idx, CompiledAll(cidr, rules[..i]))
    {
      ghost var done := CompiledAll(cidr, rules[..i]);
      assert rules[..i + 1][..i] == rules[..i];
      assert done + [] == done;
      var c := Compile(cidr, rules[i]);
      if c.Ok? {
        var cp := c.value;
        if IsGlobal(cp) {
          GlobalIsIndexed(idx, done, cp);
          idx := idx.(global := idx.global[cp.tenantId := Globals(idx, cp.tenantId) + [cp]]);
        } else {
          idx := FileUnderApps(idx, done, cp);
        }
      }
    }
    assert rules[..|rules|] == rules;
  }

  // ----- the candidates are a flat selection -----

  function Candidates(idx: Index, tenant: string, app: string): seq<CompiledPolicy> {
    Globals(idx, tenant) + AppPolicies(idx, tenant, app)
  }

  predicate Admits(cp: CompiledPolicy, tenant: string, app: string) {
    cp.tenantId == tenant && (IsGlobal(cp) || app in cp.appIds)
  }

  function Admitted(cps: seq<CompiledPolicy>, tenant: string, app: string): seq<CompiledPolicy> {
    if cps == [] then []
    else
      var n := |cps| - 1;
      Admitted(cps[..n], tenant, app) + (if Admits(cps[n], tenant, app) then [cps[n]] else [])
  }

  lemma {:induction false} SplitByScope(cps: seq<CompiledPolicy>, tenant: string, app: string)
    ensures multiset(GlobalsOf(cps, tenant) + ForApp(cps, tenant, app)) == multiset(Admitted(cps, tenant, app))
    decreases |cps|
  {
    if cps != [] {
      SplitByScope(cps[..|cps| - 1], tenant, app);
    }
  }

  /** The candidates of a lookup are exactly the policies of the tenant whose application
      selector admits the application, each as often as it is in the list. */
  lemma CandidatesAreFlatSelection(idx: Index, cps: seq<CompiledPolicy>, tenant: string, app: string)
    requires IndexOf(idx, cps)
    ensures multiset(Candidates(idx, tenant, app)) == multiset(Admitted(cps, tenant, app))
  {
    SplitByScope(cps, tenant, app);
  }

  lemma {:induction false} AdmittedMembers(cps: seq<CompiledPolicy>, tenant: string, app: string, cp: CompiledPolicy)
    ensures cp in Admitted(cps, tenant, app) <==> cp in cps && Admits(cp, tenant, app)
    decreases |cps|
  {
    if cps != [] {
      var n := |cps| - 1;
      AdmittedMembers(cps[..n], tenant, app, cp);
      assert cps == cps[..n] + [cps[n]];
    }
  }

  // ----- the verdict of a flat scan -----

  predicate Applies(w: World, cp: CompiledPolicy, req: Request) {
    cp.tenantId == req.tenantId && Matches(w.cidr, w.schedules, cp, req)
  }

  ghost predicate HasMatch(w: World, cps: seq<CompiledPolicy>, req: Request, e: Effect) {
    exists cp | cp in cps :: cp.effect == e && Applies(w, cp, req)
  }

  /** An applying policy of this effect that no other one outranks. */
  ghost predicate IsTop(w: World, cps: seq<CompiledPolicy>, req: Request, e: Effect, cp: CompiledPolicy) {
    && cp in cps && cp.effect == e && Applies(w, cp, req)
    && forall o | o in cps && o.effect == e && Applies(w, o, req) :: o.priority <= cp.priority
  }

  /** The reason of a matched DENY is the empty one that its conditions return. */
  function Report(cp: CompiledPolicy, req: Request): Decision {
    Decision(cp.effect, cp.policyId, cp.mutationId,
             if cp.effect == EffectDeny then "" else "policy_matched", cp.version,
             req.principal.userId, req.appId, req.tenantId)
  }

  function DefaultDeny(req: Request): Decision {
    Decision(EffectDeny, "", "", "default_deny", 0, req.principal.userId, req.appId, req.tenantId)
  }

  ghost predicate Verdict(w: World, cps: seq<CompiledPolicy>, req: Request, d: Decision) {
    if HasMatch(w, cps, req, EffectDeny) then
      exists cp :: IsTop(w, cps, req, EffectDeny, cp) && d == Report(cp, req)
    else if HasMatch(w, cps, req, EffectAllow) then
      exists cp :: IsTop(w, cps, req, EffectAllow, cp) && d == Report(cp, req)
    else d == DefaultDeny(req)
  }

  // ----- evaluation -----

  ghost predicate Descending(cps: seq<CompiledPolicy>) {
    forall i, j | 0 <= i < j < |cps| :: cps[i].priority >= cps[j].priority
  }

  method InsertByPriority(sorted: seq<CompiledPolicy>, cp: CompiledPolicy) returns (r: seq<CompiledPolicy>)
    requires Descending(sorted)
    ensures Descending(r) && multiset(r) == multiset(sorted) + multiset{cp}
  {
    var k := 0;
    while k < |sorted| && sorted[k].priority >= cp.priority
      invariant k <= |sorted| && forall j | 0 <= j < k :: sorted[j].priority >= cp.priority
    {
      k := k + 1;
    }
    r := sorted[..k] + [cp] + sorted[k..];
    PutBetween(sorted, k, cp);
  }

  lemma PutBetween(sorted: seq<CompiledPolicy>, k: nat, cp: CompiledPolicy)
    requires Descending(sorted) && k <= |sorted|
    requires forall j | 0 <= j < k :: sorted[j].priority >= cp.priority
    requires k < |sorted| ==> sorted[k].priority <= cp.priority
    ensures Descending(sorted[..k] + [cp] + sorted[k..])
    ensures multiset(sorted[..k] + [cp] + sorted[k..]) == multiset(sorted) + multiset{cp}
  {
    assert sorted == sorted[..k] + sorted[k..];
    AddBetween(sorted[..k], cp, sorted[k..]);
    forall i, j | 0 <= i < j < |sorted| + 1
      ensures (sorted[..k] + [cp] + sorted[k..])[i].priority >= (sorted[..k] + [cp] + sorted[k..])[j].priority
    {
      PlaceOf(sorted, k, cp, i);
      PlaceOf(sorted, k, cp, j);
    }
  }

  lemma PlaceOf(sorted: seq<CompiledPolicy>, k: nat, cp: CompiledPolicy, i: nat)
    requires k <= |sorted| && i <= |sorted|
    ensures (sorted[..k] + [cp] + sorted[k..])[i] == if i < k then sorted[i] else if i == k then cp else sorted[i - 1]
  {
  }

  lemma AddBetween<T>(before: seq<T>, x: T, after: seq<T>)
    ensures multiset(before + [x] + after) == multiset(before + after) + multiset{x}
  {
  }

  /** Any sort by descending priority would do; ties may end in any order. */
  method SortByPriority(cps: seq<CompiledPolicy>) returns (sorted: seq<CompiledPolicy>)
    ensures multiset(sorted) == multiset(cps) && Descending(sorted)
  {
    sorted := [];
    for i := 0 to |cps|
      invariant multiset(sorted) == multiset(cps[..i]) && Descending(sorted)
    {
      sorted := InsertByPriority(sorted, cps[i]);
      assert cps[..i + 1] == cps[..i] + [cps[i]];
    }
    assert cps[..|cps|] == cps;
  }

  /** The first applying policy of an effect in a sorted list, if any. */
  method FirstMatch(w: World, sorted: seq<CompiledPolicy>, req: Request, e: Effect) returns (r: Option<CompiledPolicy>)
    requires Descending(sorted)
    ensures r.None? <==> forall cp | cp in sorted && cp.effect == e :: !Matches(w.cidr, w.schedules, cp, req)
    ensures r.Some? ==> r.value in sorted && r.value.effect == e && Matches(w.cidr, w.schedules, r.value, req)
    ensures r.Some? ==> forall o | o in sorted && o.effect == e && Matches(w.cidr, w.schedules, o, req) ::
                          o.priority <= r.value.priority
  {
    for i := 0 to |sorted|
      invariant forall j | 0 <= j < i && sorted[j].effect == e :: !Matches(w.cidr, w.schedules, sorted[j], req)
    {
      var cp := sorted[i];
      if cp.effect == e {
        var subject := MatchesSubject(cp, req.principal);
        var resource := MatchesResource(cp, req);
        if subject && resource {
          var conditions := MatchesConditions(w.cidr, w.schedules, cp, req);
          if conditions {
            return Some(cp);
          }
        }
      }
    }
    return None;
  }

  /** Collects the candidates from the index, sorts them, and looks for a matching DENY,
      then for a matching ALLOW.  `cps` is any list the index was built from. */
  method Evaluate(w: World, idx: Index, ghost cps: seq<CompiledPolicy>, req: Request) returns (d: Decision)
    requires IndexOf(idx, cps)
    ensures Verdict(w, cps, req, d)
  {
    var candidates := Candidates(idx, req.tenantId, req.appId);
    var sorted := SortByPriority(candidates);
    CandidateMembers(w, idx, cps, sorted, req);
    var deny := FirstMatch(w, sorted, req, EffectDeny);
    if deny.Some? {
      assert IsTop(w, cps, req, EffectDeny, deny.value);
      return Report(deny.value, req);
    }
    var allow := FirstMatch(w, sorted, req, EffectAllow);
    if allow.Some? {
      assert IsTop(w, cps, req, EffectAllow, allow.value);
      return Report(allow.value, req);
    }
    d := DefaultDeny(req);
  }

  /** Looking only at candidates loses no applying policy and adds none. */
  lemma CandidateMembers(w: World, idx: Index, cps: seq<CompiledPolicy>, sorted: seq<CompiledPolicy>, req: Request)
    requires IndexOf(idx, cps) && multiset(sorted) == multiset(Candidates(idx, req.tenantId, req.appId))
    ensures forall cp :: cp in sorted && Matches(w.cidr, w.schedules, cp, req) <==> cp in cps && Applies(w, cp, req)
  {
    CandidatesAreFlatSelection(idx, cps, req.tenantId, req.appId);
    var flat := Admitted(cps, req.tenantId, req.appId);
    forall cp ensures cp in sorted <==> cp in cps && Admits(cp, req.tenantId, req.appId) {
      assert cp in sorted <==> cp in multiset(sorted);
      assert cp in flat <==> cp in multiset(flat);
      AdmittedMembers(cps, req.tenantId, req.appId, cp);
    }
  }

  // ----- what the verdict does not depend on -----

  ghost predicate SameMembers(a: seq<CompiledPolicy>, b: seq<CompiledPolicy>) {
    forall cp :: cp in a <==> cp in b
  }

  lemma SameMembersSameVerdict(w: World, a: seq<CompiledPolicy>, b: seq<CompiledPolicy>, req: Request, d: Decision)
    requires SameMembers(a, b) && Verdict(w, a, req, d)
    ensures Verdict(w, b, req, d)
  {
    assert HasMatch(w, a, req, EffectDeny) <==> HasMatch(w, b, req, EffectDeny);
    assert HasMatch(w, a, req, EffectAllow) <==> HasMatch(w, b, req, EffectAllow);
    forall e, cp ensures IsTop(w, a, req, e, cp) <==> IsTop(w, b, req, e, cp) {
    }
  }

  lemma {:induction false} CompiledAllMembers(cidr: Cidr, rules: seq<Rule>, cp: CompiledPolicy)
    ensures cp in CompiledAll(cidr, rules) <==> exists r | r in rules :: CidrsParse(cidr, r) && cp == Compiled(cidr, r)
    decreases |rules|
  {
    if rules != [] {
      var n := |rules| - 1;
      CompiledAllMembers(cidr, rules[..n], cp);
      assert rules == rules[..n] + [rules[n]];
    }
  }

  // ----- which policy a decision names -----

  ghost predicate RuleApplies(w: World, r: Rule, req: Request) {
    r.tenantId == req.tenantId && CidrsParse(w.cidr, r) && Matches(w.cidr, w.schedules, Compiled(w.cidr, r), req)
  }

  /** The decision names this rule, which denies if any rule that applies does, and which no rule
      of the same effect outranks. */
  ghost predicate Names(w: World, rules: seq<Rule>, req: Request, d: Decision, r: Rule) {
    && r in rules && RuleApplies(w, r, req)
    && d.policyId == r.policyId && d.mutationId == r.mutationId && d.version == r.version
    && (if r.effect.Deny? then d.effect == EffectDeny && d.reason == ""
        else d.effect == EffectAllow && d.reason == "policy_matched")
    && forall o | o in rules && RuleApplies(w, o, req) ::
         if o.effect.Deny? <==> r.effect.Deny? then o.priority <= r.priority else r.effect.Deny?
  }

  /** A verdict on rules, field by field: it names such a rule if any applies, and is the default
      DENY otherwise. */
  lemma DecisionNamesARule(w: World, rules: seq<Rule>, req: Request, d: Decision)
    requires Verdict(w, CompiledAll(w.cidr, rules), req, d)
    ensures d.userId == req.principal.userId && d.appId == req.appId && d.tenantId == req.tenantId
    ensures (exists r | r in rules :: RuleApplies(w, r, req)) ==> exists r :: Names(w, rules, req, d, r)
    ensures (forall r | r in rules :: !RuleApplies(w, r, req)) ==>
              && d.effect == EffectDeny && d.policyId == "" && d.mutationId == "" && d.version == 0
              && d.reason == "default_deny"
  {
    var cps := CompiledAll(w.cidr, rules);
    forall r | r in rules && RuleApplies(w, r, req)
      ensures Compiled(w.cidr, r) in cps && Applies(w, Compiled(w.cidr, r), req)
    {
      CompiledAllMembers(w.cidr, rules, Compiled(w.cidr, r));
    }
    if r :| r in rules && RuleApplies(w, r, req) {
      var cp :| IsTop(w, cps, req, d.effect, cp) && d == Report(cp, req);
      CompiledAllMembers(w.cidr, rules, cp);
      var named :| named in rules && CidrsParse(w.cidr, named) && cp == Compiled(w.cidr, named);
      assert Names(w, rules, req, d, named);
    } else if cp :| cp in cps && Applies(w, cp, req) {
      CompiledAllMembers(w.cidr, rules, cp);
    }
  }

  /** Neither the order of the rules nor how the index was filled changes the verdict: the
      effect is the same, and the policy reported has the same rank. */
  lemma VerdictIgnoresRuleOrder(w: World, a: seq<Rule>, b: seq<Rule>, req: Request, d: Decision)
    requires multiset(a) == multiset(b)
    ensures Verdict(w, CompiledAll(w.cidr, a), req, d) <==> Verdict(w, CompiledAll(w.cidr, b), req, d)
  {
    forall r ensures r in a <==> r in b {
      assert r in multiset(a) <==> r in multiset(b);
    }
    forall cp ensures cp in CompiledAll(w.cidr, a) <==> cp in CompiledAll(w.cidr, b) {
      CompiledAllMembers(w.cidr, a, cp);
      CompiledAllMembers(w.cidr, b, cp);
    }
    if Verdict(w, CompiledAll(w.cidr, a), req, d) {
      SameMembersSameVerdict(w, CompiledAll(w.cidr, a), CompiledAll(w.cidr, b), req, d);
    }
    if Verdict(w, CompiledAll(w.cidr, b), req, d) {
      SameMembersSameVerdict(w, CompiledAll(w.cidr, b), CompiledAll(w.cidr, a), req, d);
    }
  }

  /** Rule lists that agree on the rules of a tenant decide alike for it: the rules of other
      tenants never matter, nor do order and repetition. */
  lemma OtherTenantsIrrelevant(w: World, a: seq<Rule>, b: seq<Rule>, req: Request, d: Decision)
    requires forall r: Rule | r.tenantId == req.tenantId :: r in a <==> r in b
    ensures Verdict(w, CompiledAll(w.cidr, a), req, d) <==> Verdict(w, CompiledAll(w.cidr, b), req, d)
  {
    var ca, cb := CompiledAll(w.cidr, a), CompiledAll(w.cidr, b);
    forall cp | Applies(w, cp, req) ensures cp in ca <==> cp in cb {
      CompiledAllMembers(w.cidr, a, cp);
      CompiledAllMembers(w.cidr, b, cp);
    }
    SameApplying(w, ca, cb, req);
  }

  lemma SameApplying(w: World, a: seq<CompiledPolicy>, b: seq<CompiledPolicy>, req: Request)
    requires forall cp | Applies(w, cp, req) :: cp in a <==> cp in b
    ensures forall d :: Verdict(w, a, req, d) <==> Verdict(w, b, req, d)
  {
    assert HasMatch(w, a, req, EffectDeny) <==> HasMatch(w, b, req, EffectDeny);
    assert HasMatch(w, a, req, EffectAllow) <==> HasMatch(w, b, req, EffectAllow);
    forall e, cp ensures IsTop(w, a, req, e, cp) <==> IsTop(w, b, req, e, cp) {
    }
  }

  /** Nothing overrides a matching DENY: a request that some rule denies stays denied by a
      rule whatever rules are added, at whatever priority. */
  lemma DenyIsFinal(w: World, a: seq<Rule>, b: seq<Rule>, req: Request, d: Decision, e: Decision)
    requires forall r | r in a :: r in b
    requires Verdict(w, CompiledAll(w.cidr, a), req, d) && d.effect == EffectDeny && d != DefaultDeny(req)
    requires Verdict(w, CompiledAll(w.cidr, b), req, e)
    ensures e.effect == EffectDeny && e != DefaultDeny(req)
  {
    var ca, cb := CompiledAll(w.cidr, a), CompiledAll(w.cidr, b);
    var cp :| cp in ca && cp.effect == EffectDeny && Applies(w, cp, req);
    CompiledAllMembers(w.cidr, a, cp);
    CompiledAllMembers(w.cidr, b, cp);
    assert HasMatch(w, cb, req, EffectDeny);
  }
}
