/**
 The policy repository of the control plane (internal/cp/policy/policy_repo.go with its queries in
 internal/cp/database/queries/policies.sql): Create, Update and Delete write the policy tables and
 the mutation log in one transaction.  The log they write is a legal one, which is what the
 distribution to the gateways rests on, and what it amounts to is what the tables say.
 */
module PolicyRepo {
  import opened Wrappers
  import opened Rules
  import opened PolicyLog
  import Authoring

  /** A row of policy_mutations. */
  datatype MutationRow = MutationRow(
    seqNo: int, policyId: string, op: Op, document: map<Authoring.Key, Authoring.Json>, version: int)

  /** A live policy with its subjects, resources and conditions. */
  datatype PolicyRow = PolicyRow(settings: Authoring.CreateRequest, enabled: bool, version: int, createdAt: string)

  /** An update request; what is absent (or an empty list) stays as it is. */
  datatype Change = Change(
    name: Option<string>, description: Option<string>, effect: Option<string>, priority: Option<int>,
    enabled: Option<bool>, subjects: seq<Authoring.Typed>, resources: seq<Authoring.Typed>,
    conditions: Option<Conditions>)

  function Or<T>(o: Option<T>, otherwise: T): T {
    if o.Some? then o.value else otherwise
  }

  function Changed(old_: Authoring.CreateRequest, c: Change): Authoring.CreateRequest {
    Authoring.CreateRequest(
      Or(c.name, old_.name), Or(c.description, old_.description), Or(c.effect, old_.effect),
      Or(c.priority, old_.priority),
      if c.subjects != [] then c.subjects else old_.subjects,
      if c.resources != [] then c.resources else old_.resources,
      Or(c.conditions, old_.conditions))
  }

  /** A change changes what it names and nothing else. */
  lemma ChangesWhatItNames(old_: Authoring.CreateRequest, c: Change)
    ensures var new_ := Changed(old_, c);
            && (c.name.Some? ==> new_.name == c.name.value)
            && (c.description.Some? ==> new_.description == c.description.value)
            && (c.effect.Some? ==> new_.effect == c.effect.value)
            && (c.priority.Some? ==> new_.priority == c.priority.value)
            && (c.conditions.Some? ==> new_.conditions == c.conditions.value)
            && (c.subjects != [] ==> new_.subjects == c.subjects)
            && (c.resources != [] ==> new_.resources == c.resources)
    ensures var new_, nothing := Changed(old_, c), Change(None, None, None, None, None, [], [], None);
            && (c.name.None? ==> new_.name == old_.name)
            && (c.description.None? ==> new_.description == old_.description)
            && (c.effect.None? ==> new_.effect == old_.effect)
            && (c.priority.None? ==> new_.priority == old_.priority)
            && (c.conditions.None? ==> new_.conditions == old_.conditions)
            && (c.subjects == [] ==> new_.subjects == old_.subjects)
            && (c.resources == [] ==> new_.resources == old_.resources)
            && Changed(old_, nothing) == old_
  {
  }

  /** The row an update leaves. */
  function Next(row: PolicyRow, c: Change): PolicyRow {
    PolicyRow(Changed(row.settings, c), Or(c.enabled, row.enabled), row.version + 1, row.createdAt)
  }

  function Without(policies: map<string, PolicyRow>, id: string): map<string, PolicyRow> {
    map o | o in policies && o != id :: policies[o]
  }

  // ----- the log as the gateways get it -----

  /** mutationToRecord. */
  function RecordOf(m: MutationRow): Mutation {
    Mutation(m.seqNo, m.op, Authoring.SnapshotToRule(m.policyId, m.version, m.document))
  }

  function Records(ms: seq<MutationRow>): seq<Mutation> {
    seq(|ms|, i requires 0 <= i < |ms| => RecordOf(ms[i]))
  }

  /** The row of a policy with the highest version. */
  ghost function Latest(ms: seq<MutationRow>, id: string): Option<MutationRow> {
    if ms == [] then None
    else
      var before, m := Latest(ms[..|ms| - 1], id), ms[|ms| - 1];
      if m.policyId == id && (before.None? || before.value.version <= m.version) then Some(m) else before
  }

  predicate Used(ms: seq<MutationRow>, id: string) {
    exists i | 0 <= i < |ms| :: ms[i].policyId == id
  }

  method FindLatest(ms: seq<MutationRow>, id: string) returns (r: Option<MutationRow>)
    ensures r == Latest(ms, id)
  {
    r := None;
    for i := 0 to |ms|
      invariant r == Latest(ms[..i], id)
    {
      assert ms[..i + 1][..i] == ms[..i];
      if ms[i].policyId == id && (r.None? || r.value.version <= ms[i].version) {
        r := Some(ms[i]);
      }
    }
    assert ms[..|ms|] == ms;
  }

  /** GetLatestPolicySequence. */
  method LatestSequence(ms: seq<MutationRow>) returns (last: int)
    requires forall i | 0 <= i < |ms| :: ms[i].seqNo == i + 1
    ensures last == |ms|
  {
    last := 0;
    for i := 0 to |ms|
      invariant last == i
    {
      if ms[i].seqNo > last {
        last := ms[i].seqNo;
      }
    }
  }

  // ----- what every operation keeps -----

  /** What the fold of the log holds for a live policy: every part of its row, but for the time of
      creation and the app subjects, which an update overwrites. */
  ghost predicate IsRuleOf(r: Rule, orgId: string, id: string, row: PolicyRow) {
    && r.policyId == id && r.tenantId == orgId && r.mutationId == ""
    && r.name == row.settings.name && r.description == row.settings.description
    && r.effect == (if row.settings.effect == "ALLOW" then Allow
                    else if row.settings.effect == "DENY" then Deny else Unspecified)
    && r.priority == row.settings.priority && r.version == row.version && r.enabled == row.enabled
    && r.resource == Some(Authoring.Resources(row.settings))
    && (r.subject == Some(Authoring.Subjects(row.settings))
        || r.subject == Some(Authoring.Subjects(row.settings).(apps := Authoring.Resources(row.settings).appIds)))
    && r.conditions == if row.settings.conditions == Conditions(None, None, None, None) then None
                       else Some(row.settings.conditions)
  }

  /** The newest row of a live policy is what the fold of the log holds, and what the table says. */
  ghost predicate LiveOk(orgId: string, ms: seq<MutationRow>, f: Buckets, id: string, row: PolicyRow) {
    var k, l := PolicyKey(orgId, id), Latest(ms, id);
    && id != "" && k in f.policies && l.Some? && l.value.policyId == id
    && f.policies[k] == RecordOf(l.value).rule && IsRuleOf(f.policies[k], orgId, id, row)
  }

  /** Only identifiers that were used occur in the fold, and all of this organisation. */
  ghost predicate KeysOk(orgId: string, ms: seq<MutationRow>, f: Buckets) {
    forall k | k in f.policies || k in f.tombs :: k.tenantId == orgId && Used(ms, k.policyId)
  }

  ghost predicate TableOk(orgId: string, policies: map<string, PolicyRow>, f: Buckets) {
    forall id :: id in policies <==> PolicyKey(orgId, id) in f.policies
  }

  ghost predicate RowsOk(orgId: string, ms: seq<MutationRow>, policies: map<string, PolicyRow>, f: Buckets) {
    forall id | id in policies :: LiveOk(orgId, ms, f, id, policies[id])
  }

  ghost predicate LogOk(ms: seq<MutationRow>) {
    Legal(Records(ms)) && forall i | 0 <= i < |ms| :: ms[i].seqNo == i + 1
  }

  ghost predicate RepoOk(orgId: string, ms: seq<MutationRow>, policies: map<string, PolicyRow>) {
    var f := Fold(Records(ms));
    LogOk(ms) && KeysOk(orgId, ms, f) && TableOk(orgId, policies, f) && RowsOk(orgId, ms, policies, f)
  }

  /** One more row, legal or not. */
  lemma FoldGrows(ms: seq<MutationRow>, m: MutationRow)
    ensures Records(ms + [m]) == Records(ms) + [RecordOf(m)]
    ensures Fold(Records(ms + [m])) == FoldOne(Fold(Records(ms)), RecordOf(m))
  {
    var log, x := Records(ms), RecordOf(m);
    assert Records(ms + [m]) == log + [x] && (log + [x])[..|log|] == log;
  }

  lemma LogGrows(ms: seq<MutationRow>, m: MutationRow)
    requires LogOk(ms) && m.seqNo == |ms| + 1 && LegalNext(Fold(Records(ms)), RecordOf(m))
    ensures LogOk(ms + [m])
  {
    var log, x := Records(ms), RecordOf(m);
    FoldGrows(ms, m);
    assert (log + [x])[..|log|] == log;
  }

  lemma UsedGrows(ms: seq<MutationRow>, m: MutationRow)
    ensures forall id :: Used(ms + [m], id) <==> Used(ms, id) || m.policyId == id
  {
    var more := ms + [m];
    assert more[|ms|] == m;
    forall id | Used(ms, id) ensures Used(more, id) {
      var i :| 0 <= i < |ms| && ms[i].policyId == id;
      assert more[i].policyId == id;
    }
  }

  lemma KeysStay(orgId: string, ms: seq<MutationRow>, m: MutationRow)
    requires KeysOk(orgId, ms, Fold(Records(ms))) && RecordOf(m).rule.tenantId == orgId
    ensures KeysOk(orgId, ms + [m], Fold(Records(ms + [m])))
  {
    FoldGrows(ms, m);
    UsedGrows(ms, m);
  }

  lemma LatestGrows(ms: seq<MutationRow>, m: MutationRow, id: string)
    ensures Latest(ms + [m], id) ==
            if m.policyId == id && (Latest(ms, id).None? || Latest(ms, id).value.version <= m.version) then Some(m)
            else Latest(ms, id)
  {
    assert (ms + [m])[..|ms|] == ms;
  }

  lemma {:induction false} UnusedHasNoLatest(ms: seq<MutationRow>, id: string)
    requires !Used(ms, id)
    ensures Latest(ms, id).None?
    decreases |ms|
  {
    if ms != [] {
      var front := ms[..|ms| - 1];
      forall i | 0 <= i < |front| ensures front[i].policyId != id {
        assert ms[i].policyId != id;
      }
      UnusedHasNoLatest(front, id);
    }
  }

  /** Other policies are not touched by a row of this one. */
  lemma OthersStay(orgId: string, ms: seq<MutationRow>, m: MutationRow, id: string, row: PolicyRow)
    requires LiveOk(orgId, ms, Fold(Records(ms)), id, row) && m.policyId != id
    ensures LiveOk(orgId, ms + [m], Fold(Records(ms + [m])), id, row)
  {
    FoldGrows(ms, m);
    LatestGrows(ms, m, id);
  }

  lemma RowsStay(orgId: string, ms: seq<MutationRow>, policies: map<string, PolicyRow>, m: MutationRow)
    requires RowsOk(orgId, ms, policies, Fold(Records(ms)))
    ensures RowsOk(orgId, ms + [m], Without(policies, m.policyId), Fold(Records(ms + [m])))
  {
    forall id | id in policies && id != m.policyId
      ensures LiveOk(orgId, ms + [m], Fold(Records(ms + [m])), id, policies[id])
    {
      OthersStay(orgId, ms, m, id, policies[id]);
    }
  }

  ghost predicate NextVersion(ms: seq<MutationRow>, policies: map<string, PolicyRow>, m: MutationRow) {
    if m.policyId in policies
    then Latest(ms, m.policyId).Some? && m.version == Latest(ms, m.policyId).value.version + 1
    else m.version == 1 && !Used(ms, m.policyId)
  }

  lemma UpsertIsLegal(orgId: string, ms: seq<MutationRow>, policies: map<string, PolicyRow>, m: MutationRow)
    requires RepoOk(orgId, ms, policies) && m.op.Upsert? && m.policyId != "" && NextVersion(ms, policies, m)
    requires RecordOf(m).rule.tenantId == orgId
    ensures LegalNext(Fold(Records(ms)), RecordOf(m))
  {
    var id, f := m.policyId, Fold(Records(ms));
    if id in policies {
      assert LiveOk(orgId, ms, f, id, policies[id]);
    }
  }

  /** The new row of a policy is its latest. */
  lemma NewestIsLive(orgId: string, ms: seq<MutationRow>, policies: map<string, PolicyRow>,
                     m: MutationRow, row: PolicyRow)
    requires m.op.Upsert? && m.policyId != "" && NextVersion(ms, policies, m)
    requires IsRuleOf(RecordOf(m).rule, orgId, m.policyId, row)
    ensures LiveOk(orgId, ms + [m], Fold(Records(ms + [m])), m.policyId, row)
  {
    FoldGrows(ms, m);
    LatestGrows(ms, m, m.policyId);
    if m.policyId !in policies {
      UnusedHasNoLatest(ms, m.policyId);
    }
  }

  /** An upsert of a policy with the next version, or of a new one with version 1, keeps all. */
  lemma UpsertKeeps(orgId: string, ms: seq<MutationRow>, policies: map<string, PolicyRow>,
                    m: MutationRow, row: PolicyRow)
    requires RepoOk(orgId, ms, policies) && m.seqNo == |ms| + 1 && m.op.Upsert? && m.policyId != ""
    requires NextVersion(ms, policies, m) && IsRuleOf(RecordOf(m).rule, orgId, m.policyId, row)
    ensures RepoOk(orgId, ms + [m], policies[m.policyId := row])
  {
    UpsertIsLegal(orgId, ms, policies, m);
    LogGrows(ms, m);
    KeysStay(orgId, ms, m);
    RowsStay(orgId, ms, policies, m);
    NewestIsLive(orgId, ms, policies, m, row);
    RowsWith(orgId, ms + [m], policies, Fold(Records(ms + [m])), m.policyId, row);
    FoldGrows(ms, m);
    TableWith(orgId, policies, Fold(Records(ms)), RecordOf(m), row);
  }

  lemma RowsWith(orgId: string, ms: seq<MutationRow>, policies: map<string, PolicyRow>, f: Buckets,
                 id: string, row: PolicyRow)
    requires RowsOk(orgId, ms, Without(policies, id), f) && LiveOk(orgId, ms, f, id, row)
    ensures RowsOk(orgId, ms, policies[id := row], f)
  {
    forall o | o in policies && o != id ensures LiveOk(orgId, ms, f, o, policies[o]) {
      assert o in Without(policies, id);
    }
  }

  lemma TableWith(orgId: string, policies: map<string, PolicyRow>, f: Buckets, x: Mutation, row: PolicyRow)
    requires TableOk(orgId, policies, f) && x.op.Upsert? && x.rule.tenantId == orgId
    ensures TableOk(orgId, policies[x.rule.policyId := row], FoldOne(f, x))
  {
  }

  /** A deletion of a live policy that repeats its newest document without a version keeps all. */
  lemma DeleteKeeps(orgId: string, ms: seq<MutationRow>, policies: map<string, PolicyRow>, m: MutationRow)
    requires RepoOk(orgId, ms, policies) && m.seqNo == |ms| + 1 && m.op.Delete? && m.policyId in policies
    requires m.version == 0 && Latest(ms, m.policyId).Some? && m.document == Latest(ms, m.policyId).value.document
    ensures RepoOk(orgId, ms + [m], Without(policies, m.policyId))
  {
    DeleteIsLegal(orgId, ms, policies, m);
    LogGrows(ms, m);
    KeysStay(orgId, ms, m);
    RowsStay(orgId, ms, policies, m);
    FoldGrows(ms, m);
    TableWithout(orgId, policies, Fold(Records(ms)), RecordOf(m));
  }

  lemma TableWithout(orgId: string, policies: map<string, PolicyRow>, f: Buckets, x: Mutation)
    requires TableOk(orgId, policies, f) && x.op.Delete? && x.rule.tenantId == orgId
    ensures TableOk(orgId, Without(policies, x.rule.policyId), FoldOne(f, x))
  {
  }

  lemma DeleteIsLegal(orgId: string, ms: seq<MutationRow>, policies: map<string, PolicyRow>, m: MutationRow)
    requires RepoOk(orgId, ms, policies) && m.op.Delete? && m.policyId in policies
    requires m.version == 0 && Latest(ms, m.policyId).Some? && m.document == Latest(ms, m.policyId).value.document
    ensures LegalNext(Fold(Records(ms)), RecordOf(m)) && RecordOf(m).rule.tenantId == orgId
  {
    var id, f := m.policyId, Fold(Records(ms));
    assert LiveOk(orgId, ms, f, id, policies[id]);
    assert RecordOf(m).rule == f.policies[PolicyKey(orgId, id)].(version := 0);
  }

  lemma CreatedIsRule(orgId: string, m: MutationRow, row: PolicyRow)
    requires m.version == row.version && row.enabled
    requires m.document == Authoring.CreateSnapshot(Authoring.Identity(m.policyId, orgId, row.createdAt), row.settings)
    ensures IsRuleOf(RecordOf(m).rule, orgId, m.policyId, row)
  {
    Authoring.SnapshotRoundTrip(Authoring.Identity(m.policyId, orgId, row.createdAt), m.version, row.settings, true,
                                Authoring.Subjects(row.settings), Authoring.Resources(row.settings));
  }

  lemma UpdatedIsRule(orgId: string, m: MutationRow, row: PolicyRow)
    requires m.version == row.version
    requires m.document == Authoring.UpdateSnapshot(
                             Authoring.Identity(m.policyId, orgId, row.createdAt), row.settings, row.enabled)
    ensures IsRuleOf(RecordOf(m).rule, orgId, m.policyId, row)
  {
    var resources := Authoring.Resources(row.settings);
    Authoring.SnapshotRoundTrip(
      Authoring.Identity(m.policyId, orgId, row.createdAt), m.version, row.settings, row.enabled,
      Authoring.Subjects(row.settings).(apps := resources.appIds), resources);
  }

  // ----- the repository -----

  /** One organisation's policies and mutations.  `commits` says whether a transaction goes
      through; one that does not leaves nothing behind.  Writers run one after the other. */
  class PolicyRepository {
    const orgId: string
    var mutations: seq<MutationRow>
    var policies: map<string, PolicyRow>

    ghost predicate Valid()
      reads this
    {
      RepoOk(orgId, mutations, policies)
    }

    constructor (orgId: string)
      ensures Valid() && mutations == [] && policies == map[] && this.orgId == orgId
    {
      this.orgId, mutations, policies := orgId, [], map[];
      new;
      assert Records([]) == [];
    }

    /** Where the log stands, and what it holds of a policy. */
    method Position(id: string) returns (last: int, latest: Option<MutationRow>)
      requires Valid()
      ensures last == |mutations| && latest == Latest(mutations, id)
      ensures id in policies ==> id != "" && latest.Some? && latest.value.version == policies[id].version
      ensures !Used(mutations, id) ==> id !in policies
    {
      latest := FindLatest(mutations, id);
      last := LatestSequence(mutations);
      assert id in policies ==> LiveOk(orgId, mutations, Fold(Records(mutations)), id, policies[id]);
    }

    method Commit(rows: seq<MutationRow>, table: map<string, PolicyRow>)
      requires RepoOk(orgId, rows, table)
      modifies this
      ensures Valid() && mutations == rows && policies == table
    {
      mutations, policies := rows, table;
    }

    /** The transaction of an upsert. */
    method Upsert(m: MutationRow, row: PolicyRow)
      requires Valid() && m.seqNo == |mutations| + 1 && m.op.Upsert? && m.policyId != ""
      requires NextVersion(mutations, policies, m) && IsRuleOf(RecordOf(m).rule, orgId, m.policyId, row)
      modifies this
      ensures Valid() && mutations == old(mutations) + [m] && policies == old(policies)[m.policyId := row]
    {
      UpsertKeeps(orgId, mutations, policies, m, row);
      Commit(mutations + [m], policies[m.policyId := row]);
    }

    /** The transaction of a deletion. */
    method Remove(m: MutationRow)
      requires Valid() && m.seqNo == |mutations| + 1 && m.op.Delete? && m.policyId in policies && m.version == 0
      requires Latest(mutations, m.policyId).Some?
      requires m.document == Latest(mutations, m.policyId).value.document
      modifies this
      ensures Valid() && mutations == old(mutations) + [m] && policies == Without(old(policies), m.policyId)
    {
      DeleteKeeps(orgId, mutations, policies, m);
      Commit(mutations + [m], Without(policies, m.policyId));
    }

    /** A new policy under an identifier that was never used, at version 1 and enabled. */
    method Create(id: string, now: string, req: Authoring.CreateRequest, commits: bool)
      requires Valid() && id != "" && !Used(mutations, id)
      modifies this
      ensures Valid()
      ensures policies == if commits then old(policies)[id := PolicyRow(req, true, 1, now)] else old(policies)
      ensures |mutations| == |old(mutations)| + (if commits then 1 else 0) && old(mutations) <= mutations
    {
      var last, _ := Position(id);
      var snapshot := Authoring.BuildSnapshotFromRequest(Authoring.Identity(id, orgId, now), req);
      if commits {
        var m, row := MutationRow(last + 1, id, PolicyLog.Upsert, snapshot, 1), PolicyRow(req, true, 1, now);
        CreatedIsRule(orgId, m, row);
        Upsert(m, row);
      }
    }

    /** The next version of a live policy, with the change merged in; any other is not found. */
    method Update(id: string, change: Change, commits: bool) returns (found: bool)
      requires Valid()
      modifies this
      ensures Valid() && found == (id in old(policies))
      ensures policies == if found && commits then old(policies)[id := Next(old(policies)[id], change)]
                          else old(policies)
      ensures |mutations| == |old(mutations)| + (if found && commits then 1 else 0) && old(mutations) <= mutations
    {
      found := id in policies;
      if !found {
        return;
      }
      var last, latest := Position(id);
      var next := Next(policies[id], change);
      var m := UpdateRow(id, last + 1, latest.value.version + 1, next);
      if commits {
        Upsert(m, next);
      }
    }

    /** The mutation of an update. */
    method UpdateRow(id: string, seqNo: int, version: int, next: PolicyRow) returns (m: MutationRow)
      requires version == next.version
      ensures m.seqNo == seqNo && m.op.Upsert? && m.policyId == id && m.version == version
      ensures IsRuleOf(RecordOf(m).rule, orgId, id, next)
    {
      var snapshot := Authoring.BuildSnapshotFromPolicy(
        Authoring.Identity(id, orgId, next.createdAt), next.settings, next.enabled);
      m := MutationRow(seqNo, id, PolicyLog.Upsert, snapshot, version);
      UpdatedIsRule(orgId, m, next);
    }

    /** Ends a live policy; the mutation repeats its newest document and carries no version. */
    method Delete(id: string, commits: bool) returns (found: bool)
      requires Valid()
      modifies this
      ensures Valid() && found == (id in old(policies))
      ensures policies == if found && commits then Without(old(policies), id) else old(policies)
      ensures |mutations| == |old(mutations)| + (if found && commits then 1 else 0) && old(mutations) <= mutations
    {
      found := id in policies;
      if !found {
        return;
      }
      var last, latest := Position(id);
      if commits {
        Remove(MutationRow(last + 1, id, PolicyLog.Delete, latest.value.document, 0));
      }
    }
  }
}
