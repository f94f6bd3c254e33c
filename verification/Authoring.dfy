/**
 From an administrator's request to the compiled policy: typed subjects and resources are
 partitioned, the policy is stored as a JSON snapshot (internal/cp/policy/policy_repo.go),
 and the snapshot is turned back into a rule for the gateways (policy_distribution.go).
 `Describes` says directly what the request asks for.
 */
module Authoring {
  import opened Wrappers
  import opened Glob
  import opened Rules

  datatype Typed = Typed(kind: string, value: string)

  datatype CreateRequest = CreateRequest(
    name: string, description: string, effect: string, priority: int,
    subjects: seq<Typed>, resources: seq<Typed>, conditions: Conditions)

  /** What the repository adds to a request: the policy, its organisation, and the time. */
  datatype Identity = Identity(policyId: string, orgId: string, createdAt: string)

  /** The field names of the stored documents. */
  datatype Key =
    | PolicyMutationIdKey | PolicyIdKey | TenantIdKey | NameKey | DescriptionKey | EffectKey
    | PriorityKey | ConditionsKey | EnabledKey | SubjectKey | ResourceKey | UsersKey | GroupsKey
    | AppsKey | AppIdsKey | PathsKey | MethodsKey | MfaKey | DeviceKey | NetworkKey | TimeKey
    | PosturesKey | RequiredKey | MinLevelKey | AllowedCountriesKey | BlockedCountriesKey
    | AllowedCidrsKey | BlockedCidrsKey | BlockTorKey | ScheduleNameKey | CreatedAtKey

  /** A JSON document as it comes back from the database; numbers are whole here. */
  datatype Json =
    | JNull | JBool(b: bool) | JNum(n: int) | JStr(s: string)
    | JArr(items: seq<Json>) | JObj(fields: map<Key, Json>)

  // ----- partitioning -----

  function ValuesOf(kind: string, items: seq<Typed>): seq<string> {
    if items == [] then []
    else ValuesOf(kind, items[..|items| - 1])
         + (if items[|items| - 1].kind == kind then [items[|items| - 1].value] else [])
  }

  method PartitionSubjects(subjs: seq<Typed>) returns (users: seq<string>, groups: seq<string>, apps: seq<string>)
    ensures users == ValuesOf("user", subjs) && groups == ValuesOf("group", subjs) && apps == ValuesOf("app", subjs)
  {
    users, groups, apps := [], [], [];
    for i := 0 to |subjs|
      invariant users == ValuesOf("user", subjs[..i])
      invariant groups == ValuesOf("group", subjs[..i])
      invariant apps == ValuesOf("app", subjs[..i])
    {
      assert subjs[..i + 1][..i] == subjs[..i];
      if subjs[i].kind == "user" {
        users := users + [subjs[i].value];
      } else if subjs[i].kind == "group" {
        groups := groups + [subjs[i].value];
      } else if subjs[i].kind == "app" {
        apps := apps + [subjs[i].value];
      }
    }
    assert subjs[..|subjs|] == subjs;
  }

  method PartitionResources(res: seq<Typed>) returns (appIds: seq<string>, paths: seq<string>, methods: seq<string>)
    ensures appIds == ValuesOf("app", res) && paths == ValuesOf("path", res) && methods == ValuesOf("method", res)
  {
    appIds, paths, methods := [], [], [];
    for i := 0 to |res|
      invariant appIds == ValuesOf("app", res[..i])
      invariant paths == ValuesOf("path", res[..i])
      invariant methods == ValuesOf("method", res[..i])
    {
      assert res[..i + 1][..i] == res[..i];
      if res[i].kind == "app" {
        appIds := appIds + [res[i].value];
      } else if res[i].kind == "path" {
        paths := paths + [res[i].value];
      } else if res[i].kind == "method" {
        methods := methods + [res[i].value];
      }
    }
    assert res[..|res|] == res;
  }

  lemma {:induction false} ValuesOfMembers(kind: string, items: seq<Typed>, v: string)
    ensures v in ValuesOf(kind, items) <==> Typed(kind, v) in items
    decreases |items|
  {
    if items != [] {
      var n := |items| - 1;
      ValuesOfMembers(kind, items[..n], v);
      assert items == items[..n] + [items[n]];
    }
  }

  // ----- the snapshot -----

  /** A nil slice is stored as null. */
  function Strings(xs: seq<string>): Json {
    if xs == [] then JNull else JArr(seq(|xs|, i requires 0 <= i < |xs| => JStr(xs[i])))
  }

  function FieldIf(key: Key, present: bool, value: Json): map<Key, Json> {
    if present then map[key := value] else map[]
  }

  /** Absent conditions and empty optional parts are left out of the document. */
  function ConditionsJson(c: Conditions): Json {
    JObj(
      FieldIf(MfaKey, c.mfa.Some?, if c.mfa.Some? then MfaJson(c.mfa.value) else JNull)
      + FieldIf(DeviceKey, c.device.Some?, if c.device.Some? then DeviceJson(c.device.value) else JNull)
      + FieldIf(NetworkKey, c.network.Some?, if c.network.Some? then NetworkJson(c.network.value) else JNull)
      + FieldIf(TimeKey, c.time.Some?, if c.time.Some? then TimeJson(c.time.value) else JNull))
  }

  function MfaJson(m: MFACondition): Json {
    JObj(map[RequiredKey := JBool(m.required)] + FieldIf(MinLevelKey, m.minLevel != "", JStr(m.minLevel)))
  }

  function NetworkJson(n: NetworkCondition): Json {
    JObj(
      FieldIf(AllowedCountriesKey, n.allowedCountries != [], Strings(n.allowedCountries))
      + FieldIf(BlockedCountriesKey, n.blockedCountries != [], Strings(n.blockedCountries))
      + FieldIf(AllowedCidrsKey, n.allowedCidrs != [], Strings(n.allowedCidrs))
      + FieldIf(BlockedCidrsKey, n.blockedCidrs != [], Strings(n.blockedCidrs))
      + FieldIf(BlockTorKey, n.blockTor, JBool(true)))
  }

  function DeviceJson(postures: seq<string>): Json {
    JObj(map[PosturesKey := Strings(postures)])
  }

  function TimeJson(schedule: string): Json {
    JObj(FieldIf(ScheduleNameKey, schedule != "", JStr(schedule)))
  }

  function SubjectJson(subj: SubjectSelector): map<Key, Json> {
    map[UsersKey := Strings(subj.users), GroupsKey := Strings(subj.groups), AppsKey := Strings(subj.apps)]
  }

  function ResourceJson(res: ResourceSelector): map<Key, Json> {
    map[AppIdsKey := Strings(res.appIds), PathsKey := Strings(res.paths), MethodsKey := Strings(res.methods)]
  }

  function SelectorsJson(subj: SubjectSelector, res: ResourceSelector): map<Key, Json> {
    map[SubjectKey := JObj(SubjectJson(subj)), ResourceKey := JObj(ResourceJson(res))]
  }

  function HeadJson(id: Identity, req: CreateRequest, enabled: bool): map<Key, Json> {
    map[PolicyIdKey := JStr(id.policyId), TenantIdKey := JStr(id.orgId), NameKey := JStr(req.name),
        DescriptionKey := JStr(req.description), EffectKey := JStr(req.effect), PriorityKey := JNum(req.priority),
        ConditionsKey := ConditionsJson(req.conditions), EnabledKey := JBool(enabled),
        CreatedAtKey := JStr(id.createdAt)]
  }

  function Subjects(req: CreateRequest): SubjectSelector {
    SubjectSelector(ValuesOf("user", req.subjects), ValuesOf("group", req.subjects), ValuesOf("app", req.subjects))
  }

  function Resources(req: CreateRequest): ResourceSelector {
    ResourceSelector(ValuesOf("app", req.resources), ValuesOf("path", req.resources), ValuesOf("method", req.resources))
  }

  function CreateSnapshot(id: Identity, req: CreateRequest): map<Key, Json> {
    HeadJson(id, req, true) + SelectorsJson(Subjects(req), Resources(req))
  }

  method BuildSnapshotFromRequest(id: Identity, req: CreateRequest) returns (snapshot: map<Key, Json>)
    ensures snapshot == CreateSnapshot(id, req)
  {
    var users, groups, subjectApps := PartitionSubjects(req.subjects);
    var apps, paths, methods := PartitionResources(req.resources);
    snapshot := HeadJson(id, req, true)
      + SelectorsJson(SubjectSelector(users, groups, subjectApps), ResourceSelector(apps, paths, methods));
  }

  function UpdateSnapshot(id: Identity, merged: CreateRequest, enabled: bool): map<Key, Json> {
    HeadJson(id, merged, enabled)
    + SelectorsJson(Subjects(merged).(apps := Resources(merged).appIds), Resources(merged))
  }

  /** The snapshot of an update: the variable that held the subject apps is assigned the
      resource apps before the subject part is built, as in the code. */
  method BuildSnapshotFromPolicy(id: Identity, merged: CreateRequest, enabled: bool)
    returns (snapshot: map<Key, Json>)
    ensures snapshot == UpdateSnapshot(id, merged, enabled)
  {
    var users, groups, apps := PartitionSubjects(merged.subjects);
    var paths, methods;
    apps, paths, methods := PartitionResources(merged.resources);
    snapshot := HeadJson(id, merged, enabled)
      + SelectorsJson(SubjectSelector(users, groups, apps), ResourceSelector(apps, paths, methods));
  }

  // ----- reading a snapshot back -----

  function GetString(m: map<Key, Json>, key: Key): string {
    if key in m && m[key].JStr? then m[key].s else ""
  }

  function GetBool(m: map<Key, Json>, key: Key): bool {
    key in m && m[key].JBool? && m[key].b
  }

  function StringItems(items: seq<Json>): seq<string> {
    if items == [] then []
    else (if items[0].JStr? then [items[0].s] else []) + StringItems(items[1..])
  }

  function GetStringSlice(m: map<Key, Json>, key: Key): seq<string> {
    if key in m && m[key].JArr? then StringItems(m[key].items) else []
  }

  function GetObject(m: map<Key, Json>, key: Key): Option<map<Key, Json>> {
    if key in m && m[key].JObj? then Some(m[key].fields) else None
  }

  function MfaOf(m: map<Key, Json>): MFACondition {
    MFACondition(GetBool(m, RequiredKey), GetString(m, MinLevelKey))
  }

  function NetworkOf(m: map<Key, Json>): NetworkCondition {
    NetworkCondition(
      GetStringSlice(m, AllowedCountriesKey), GetStringSlice(m, BlockedCountriesKey),
      GetStringSlice(m, AllowedCidrsKey), GetStringSlice(m, BlockedCidrsKey), GetBool(m, BlockTorKey))
  }

  function MapToConditions(m: map<Key, Json>): Option<Conditions> {
    var mfa, dev := GetObject(m, MfaKey), GetObject(m, DeviceKey);
    var net, tm := GetObject(m, NetworkKey), GetObject(m, TimeKey);
    if mfa.None? && dev.None? && net.None? && tm.None? then None
    else Some(Conditions(
      if mfa.None? then None else Some(MfaOf(mfa.value)),
      if dev.None? then None else Some(GetStringSlice(dev.value, PosturesKey)),
      if net.None? then None else Some(NetworkOf(net.value)),
      if tm.None? then None else Some(GetString(tm.value, ScheduleNameKey))))
  }

  function SnapshotToRule(policyId: string, version: int, m: map<Key, Json>): Rule {
    var eff, cond := GetString(m, EffectKey), GetObject(m, ConditionsKey);
    var subj, res := GetObject(m, SubjectKey), GetObject(m, ResourceKey);
    Rule(
      policyId, GetString(m, PolicyMutationIdKey), GetString(m, TenantIdKey),
      GetString(m, NameKey), GetString(m, DescriptionKey),
      if eff == "ALLOW" then Allow else if eff == "DENY" then Deny else Unspecified,
      if PriorityKey in m && m[PriorityKey].JNum? then m[PriorityKey].n else 0,
      version, GetBool(m, EnabledKey), GetString(m, CreatedAtKey),
      if subj.None? then None else Some(SubjectSelector(
        GetStringSlice(subj.value, UsersKey), GetStringSlice(subj.value, GroupsKey),
        GetStringSlice(subj.value, AppsKey))),
      if res.None? then None else Some(ResourceSelector(
        GetStringSlice(res.value, AppIdsKey), GetStringSlice(res.value, PathsKey),
        GetStringSlice(res.value, MethodsKey))),
      if cond.None? then None else MapToConditions(cond.value))
  }

  /** Items that are no texts are skipped. */
  lemma {:induction false} TextsOnly(items: seq<Json>, v: string)
    ensures v in StringItems(items) <==> JStr(v) in items
  {
    if items != [] {
      TextsOnly(items[1..], v);
    }
  }

  /** A document with nothing in it: whatever is missing counts as empty, the effect as none. */
  lemma MissingFieldsAreEmpty(policyId: string, version: int, m: map<Key, Json>)
    requires forall k | k in m :: m[k] == JNull
    ensures SnapshotToRule(policyId, version, m) ==
            Rule(policyId, "", "", "", "", Unspecified, 0, version, false, "", None, None, None)
  {
  }

  // ----- round trip through the document -----

  lemma {:induction false} StringsRoundTrip(xs: seq<string>)
    ensures StringItems(seq(|xs|, i requires 0 <= i < |xs| => JStr(xs[i]))) == xs
  {
    var js := seq(|xs|, i requires 0 <= i < |xs| => JStr(xs[i]));
    if xs != [] {
      var t := xs[1..];
      StringsRoundTrip(t);
      assert js[1..] == seq(|t|, i requires 0 <= i < |t| => JStr(t[i]));
    }
  }

  lemma FieldRoundTrip(m: map<Key, Json>, key: Key, xs: seq<string>)
    requires Holds(m, key, xs)
    ensures GetStringSlice(m, key) == xs
  {
    StringsRoundTrip(xs);
  }

  predicate Holds(m: map<Key, Json>, key: Key, xs: seq<string>) {
    (key in m && m[key] == Strings(xs)) || (key !in m && xs == [])
  }

  lemma NetworkFields(n: NetworkCondition)
    ensures var f := NetworkJson(n).fields;
            && Holds(f, AllowedCountriesKey, n.allowedCountries) && Holds(f, BlockedCountriesKey, n.blockedCountries)
            && Holds(f, AllowedCidrsKey, n.allowedCidrs) && Holds(f, BlockedCidrsKey, n.blockedCidrs)
            && GetBool(f, BlockTorKey) == n.blockTor
  {
  }

  lemma NetworkRoundTrip(n: NetworkCondition)
    ensures NetworkOf(NetworkJson(n).fields) == n
  {
    var f := NetworkJson(n).fields;
    NetworkFields(n);
    FieldRoundTrip(f, AllowedCountriesKey, n.allowedCountries);
    FieldRoundTrip(f, BlockedCountriesKey, n.blockedCountries);
    FieldRoundTrip(f, AllowedCidrsKey, n.allowedCidrs);
    FieldRoundTrip(f, BlockedCidrsKey, n.blockedCidrs);
  }

  lemma MfaAndTimeRoundTrip(m: MFACondition, schedule: string)
    ensures MfaOf(MfaJson(m).fields) == m && GetString(TimeJson(schedule).fields, ScheduleNameKey) == schedule
  {
  }

  lemma ConditionFields(c: Conditions)
    ensures var f := ConditionsJson(c).fields;
            && GetObject(f, MfaKey) == (if c.mfa.Some? then Some(MfaJson(c.mfa.value).fields) else None)
            && GetObject(f, DeviceKey) == (if c.device.Some? then Some(DeviceJson(c.device.value).fields) else None)
            && GetObject(f, NetworkKey) == (if c.network.Some? then Some(NetworkJson(c.network.value).fields) else None)
            && GetObject(f, TimeKey) == (if c.time.Some? then Some(TimeJson(c.time.value).fields) else None)
  {
    var a := FieldIf(MfaKey, c.mfa.Some?, if c.mfa.Some? then MfaJson(c.mfa.value) else JNull);
    var b := FieldIf(DeviceKey, c.device.Some?, if c.device.Some? then DeviceJson(c.device.value) else JNull);
    var d := FieldIf(NetworkKey, c.network.Some?, if c.network.Some? then NetworkJson(c.network.value) else JNull);
    var e := FieldIf(TimeKey, c.time.Some?, if c.time.Some? then TimeJson(c.time.value) else JNull);
    var f := a + b + d + e;
    assert f == ConditionsJson(c).fields;
    InUnion(a, b, d, e, MfaKey);
    InUnion(a, b, d, e, DeviceKey);
    InUnion(a, b, d, e, NetworkKey);
    InUnion(a, b, d, e, TimeKey);
  }

  lemma InUnion(a: map<Key, Json>, b: map<Key, Json>, c: map<Key, Json>, d: map<Key, Json>, k: Key)
    ensures GetObject(a + b + c + d, k) ==
            if k in d then GetObject(d, k) else if k in c then GetObject(c, k)
            else if k in b then GetObject(b, k) else GetObject(a, k)
  {
  }

  lemma ConditionsRoundTrip(c: Conditions)
    ensures MapToConditions(ConditionsJson(c).fields) ==
            if c == Conditions(None, None, None, None) then None else Some(c)
  {
    var f := ConditionsJson(c).fields;
    ConditionFields(c);
    MfaAndTimeRoundTrip(if c.mfa.Some? then c.mfa.value else MFACondition(false, ""),
                        if c.time.Some? then c.time.value else "");
    if c.network.Some? {
      NetworkRoundTrip(c.network.value);
    }
    if c.device.Some? {
      FieldRoundTrip(DeviceJson(c.device.value).fields, PosturesKey, c.device.value);
    }
  }

  lemma LeftOfUnion(a: map<Key, Json>, b: map<Key, Json>, k: Key)
    requires k !in b
    ensures GetString(a + b, k) == GetString(a, k)
  {
  }

  lemma HeadTexts(id: Identity, req: CreateRequest, enabled: bool, rest: map<Key, Json>)
    requires rest.Keys == {SubjectKey, ResourceKey}
    ensures var m := HeadJson(id, req, enabled) + rest;
            && GetString(m, PolicyMutationIdKey) == "" && GetString(m, TenantIdKey) == id.orgId
            && GetString(m, NameKey) == req.name && GetString(m, DescriptionKey) == req.description
            && GetString(m, EffectKey) == req.effect && GetString(m, CreatedAtKey) == id.createdAt
  {
    var head := HeadJson(id, req, enabled);
    LeftOfUnion(head, rest, PolicyMutationIdKey);
    LeftOfUnion(head, rest, TenantIdKey);
    LeftOfUnion(head, rest, NameKey);
    LeftOfUnion(head, rest, DescriptionKey);
    LeftOfUnion(head, rest, EffectKey);
    LeftOfUnion(head, rest, CreatedAtKey);
  }

  lemma HeadFields(id: Identity, req: CreateRequest, enabled: bool, rest: map<Key, Json>)
    requires rest.Keys == {SubjectKey, ResourceKey}
    ensures var m := HeadJson(id, req, enabled) + rest;
            && PriorityKey in m && m[PriorityKey] == JNum(req.priority) && GetBool(m, EnabledKey) == enabled
            && GetObject(m, ConditionsKey) == Some(ConditionsJson(req.conditions).fields)
            && GetObject(m, SubjectKey) == GetObject(rest, SubjectKey)
            && GetObject(m, ResourceKey) == GetObject(rest, ResourceKey)
  {
  }

  lemma SelectorFields(subj: SubjectSelector, res: ResourceSelector)
    ensures var m := SelectorsJson(subj, res);
            && m.Keys == {SubjectKey, ResourceKey}
            && GetObject(m, SubjectKey) == Some(SubjectJson(subj))
            && GetObject(m, ResourceKey) == Some(ResourceJson(res))
    ensures var s := SubjectJson(subj);
            subj == SubjectSelector(
              GetStringSlice(s, UsersKey), GetStringSlice(s, GroupsKey), GetStringSlice(s, AppsKey))
    ensures var r := ResourceJson(res);
            res == ResourceSelector(
              GetStringSlice(r, AppIdsKey), GetStringSlice(r, PathsKey), GetStringSlice(r, MethodsKey))
  {
    var s, r := SubjectJson(subj), ResourceJson(res);
    FieldRoundTrip(s, UsersKey, subj.users);
    FieldRoundTrip(s, GroupsKey, subj.groups);
    FieldRoundTrip(s, AppsKey, subj.apps);
    FieldRoundTrip(r, AppIdsKey, res.appIds);
    FieldRoundTrip(r, PathsKey, res.paths);
    FieldRoundTrip(r, MethodsKey, res.methods);
  }

  /** What a gateway receives for a stored policy: every part of the request comes back,
      except that nothing ever writes a mutation id into the snapshot. */
  lemma SnapshotRoundTrip(id: Identity, version: int, req: CreateRequest, enabled: bool,
                          subj: SubjectSelector, res: ResourceSelector)
    ensures SnapshotToRule(id.policyId, version, HeadJson(id, req, enabled) + SelectorsJson(subj, res)) ==
            Rule(id.policyId, "", id.orgId, req.name, req.description,
                 if req.effect == "ALLOW" then Allow else if req.effect == "DENY" then Deny else Unspecified,
                 req.priority, version, enabled, id.createdAt, Some(subj), Some(res),
                 if req.conditions == Conditions(None, None, None, None) then None else Some(req.conditions))
  {
    SelectorFields(subj, res);
    HeadTexts(id, req, enabled, SelectorsJson(subj, res));
    HeadFields(id, req, enabled, SelectorsJson(subj, res));
    ConditionsRoundTrip(req.conditions);
  }

  // ----- what a request describes -----

  predicate Mentions(items: seq<Typed>, kind: string) {
    exists t | t in items :: t.kind == kind
  }

  predicate DescribesSubject(subjects: seq<Typed>, p: Principal) {
    && (Mentions(subjects, "group") ==> exists g | g in p.groups :: Typed("group", g) in subjects)
    && (if Mentions(subjects, "user")
        then Typed("user", p.userId) in subjects || Typed("user", p.email) in subjects
        else Mentions(subjects, "app") ==> Typed("app", p.userId) in subjects)
  }

  predicate DescribesResource(resources: seq<Typed>, req: Request) {
    && (Mentions(resources, "app") ==> Typed("app", req.appId) in resources || Typed("app", "*") in resources)
    && (Mentions(resources, "method") ==> Typed("method", req.verb) in resources || Typed("method", "*") in resources)
    && (Mentions(resources, "path") ==>
          exists t | t in resources :: t.kind == "path" && Match(CompilePathMatcher(t.value), req.path))
  }

  predicate DescribesNetwork(cidr: Cidr, n: NetworkCondition, req: Request) {
    && !(n.blockTor && req.torExit)
    && (n.allowedCountries == [] || req.country in n.allowedCountries)
    && req.country !in n.blockedCountries
    && (n.allowedCidrs == [] || exists t | t in n.allowedCidrs :: InNet(cidr, t, req.sourceIp))
    && (forall t | t in n.blockedCidrs :: !InNet(cidr, t, req.sourceIp))
  }

  predicate InNet(cidr: Cidr, text: string, ip: nat) {
    cidr.parse(text).Some? && cidr.contains(cidr.parse(text).value, ip)
  }

  /** The networks a request or a policy names can be read. */
  predicate NetworksParse(cidr: Cidr, c: Conditions) {
    c.network.Some? ==>
      && (forall t | t in c.network.value.allowedCidrs :: cidr.parse(t).Some?)
      && (forall t | t in c.network.value.blockedCidrs :: cidr.parse(t).Some?)
  }

  /** The level somebody has meets the level asked for: webauthn is above push, push above totp,
      and a text that is none of these asks for any level at all. */
  predicate MfaMeets(have: string, asked: string) {
    && have != ""
    && (asked == "webauthn" ==> have == "webauthn")
    && (asked == "push" ==> have == "push" || have == "webauthn")
    && (asked == "totp" ==> have == "totp" || have == "push" || have == "webauthn")
  }

  predicate DescribesConditions(cidr: Cidr, schedules: set<string>, c: Conditions, req: Request) {
    && (c.mfa.Some? && c.mfa.value.required ==> MfaMeets(req.principal.mfaLevel, c.mfa.value.minLevel))
    && (c.device.Some? && c.device.value != [] ==> req.posture in c.device.value)
    && (c.network.Some? ==> DescribesNetwork(cidr, c.network.value, req))
    && (c.time.Some? ==> c.time.value in schedules)
  }

  predicate Describes(cidr: Cidr, schedules: set<string>, cr: CreateRequest, req: Request) {
    && DescribesSubject(cr.subjects, req.principal)
    && DescribesResource(cr.resources, req)
    && DescribesConditions(cidr, schedules, cr.conditions, req)
  }

  lemma ElementsOfKind(kind: string, items: seq<Typed>)
    ensures forall v :: v in Elements(ValuesOf(kind, items)) <==> Typed(kind, v) in items
    ensures Elements(ValuesOf(kind, items)) == {} <==> !Mentions(items, kind)
    ensures ValuesOf(kind, items) == [] <==> !Mentions(items, kind)
  {
    var vs := ValuesOf(kind, items);
    forall v ensures v in Elements(vs) <==> Typed(kind, v) in items {
      ValuesOfMembers(kind, items, v);
    }
    if Mentions(items, kind) {
      var t :| t in items && t.kind == kind;
      assert t == Typed(kind, t.value) && t.value in Elements(vs);
    } else if vs != [] {
      ValuesOfMembers(kind, items, vs[0]);
    }
  }

  lemma SubjectMeaning(cp: CompiledPolicy, subjects: seq<Typed>, p: Principal)
    requires cp.groups == Elements(ValuesOf("group", subjects))
    requires cp.users == Elements(ValuesOf("user", subjects))
    requires cp.sourceApps == Elements(ValuesOf("app", subjects))
    ensures SubjectMatches(cp, p) <==> DescribesSubject(subjects, p)
  {
    ElementsOfKind("group", subjects);
    ElementsOfKind("user", subjects);
    ElementsOfKind("app", subjects);
  }

  lemma PathMeaning(resources: seq<Typed>, path: string)
    ensures (exists pm | pm in PathMatchers(ValuesOf("path", resources)) :: Match(pm, path)) <==>
            exists t | t in resources :: t.kind == "path" && Match(CompilePathMatcher(t.value), path)
  {
    var vs := ValuesOf("path", resources);
    var ms := PathMatchers(vs);
    if pm :| pm in ms && Match(pm, path) {
      var i :| 0 <= i < |ms| && ms[i] == pm;
      ValuesOfMembers("path", resources, vs[i]);
      assert Typed("path", vs[i]).kind == "path";
    }
    if t :| t in resources && t.kind == "path" && Match(CompilePathMatcher(t.value), path) {
      ValuesOfMembers("path", resources, t.value);
      assert t == Typed("path", t.value);
      var i :| 0 <= i < |vs| && vs[i] == t.value;
      assert ms[i] in ms;
    }
  }

  lemma ResourceMeaning(cp: CompiledPolicy, resources: seq<Typed>, req: Request)
    requires cp.appIds == Elements(ValuesOf("app", resources))
    requires cp.methods ==
             if ValuesOf("method", resources) == [] then {"*"} else Elements(ValuesOf("method", resources))
    requires cp.pathMatchers == PathMatchers(ValuesOf("path", resources))
    ensures ResourceMatches(cp, req) <==> DescribesResource(resources, req)
  {
    ElementsOfKind("app", resources);
    ElementsOfKind("method", resources);
    ElementsOfKind("path", resources);
    PathMeaning(resources, req.path);
  }

  lemma NetsMeaning(cidr: Cidr, texts: seq<string>, ip: nat)
    requires ParseAll(cidr, texts).Some?
    ensures (exists n | n in ParseAll(cidr, texts).value :: cidr.contains(n, ip)) <==>
            exists t | t in texts :: InNet(cidr, t, ip)
    ensures ParseAll(cidr, texts).value == [] <==> texts == []
  {
    var nets := ParseAll(cidr, texts).value;
    assert |nets| == |texts|;
    if n :| n in nets && cidr.contains(n, ip) {
      var i :| 0 <= i < |nets| && nets[i] == n;
      assert InNet(cidr, texts[i], ip);
    }
    if t :| t in texts && InNet(cidr, t, ip) {
      var i :| 0 <= i < |texts| && texts[i] == t;
      assert nets[i] in nets;
    }
  }

  lemma ConditionsMeaning(cidr: Cidr, schedules: set<string>, rule: Rule, c: Conditions, req: Request)
    requires CidrsParse(cidr, rule)
    requires rule.conditions == if c == Conditions(None, None, None, None) then None else Some(c)
    ensures ConditionsMatch(cidr, schedules, Compiled(cidr, rule), req) <==>
            DescribesConditions(cidr, schedules, c, req)
  {
    NothingToCompile(cidr);
    if c.network.Some? {
      var n := c.network.value;
      NetsMeaning(cidr, n.allowedCidrs, req.sourceIp);
      NetsMeaning(cidr, n.blockedCidrs, req.sourceIp);
      EmptyElements(n.allowedCountries);
    }
  }

  lemma ResourcePart(cidr: Cidr, rule: Rule, resources: seq<Typed>, req: Request)
    requires CidrsParse(cidr, rule)
    requires rule.resource == Some(ResourceSelector(ValuesOf("app", resources), ValuesOf("path", resources),
                                                    ValuesOf("method", resources)))
    ensures ResourceMatches(Compiled(cidr, rule), req) <==> DescribesResource(resources, req)
  {
    ResourceMeaning(Compiled(cidr, rule), resources, req);
  }

  /** The compiled form of a rule that carries the selectors and conditions of a request. */
  lemma CompiledMeaning(cidr: Cidr, schedules: set<string>, rule: Rule, cr: CreateRequest, req: Request)
    requires CidrsParse(cidr, rule)
    requires rule.subject == Some(Subjects(cr)) && rule.resource == Some(Resources(cr))
    requires rule.conditions ==
             if cr.conditions == Conditions(None, None, None, None) then None else Some(cr.conditions)
    ensures Matches(cidr, schedules, Compiled(cidr, rule), req) <==> Describes(cidr, schedules, cr, req)
  {
    var cp := Compiled(cidr, rule);
    SubjectMeaning(cp, cr.subjects, req.principal);
    ResourcePart(cidr, rule, cr.resources, req);
    ConditionsMeaning(cidr, schedules, rule, cr.conditions, req);
  }

  /** Meaning is preserved from the request to the matcher: for every create request whose
      networks parse, the policy that comes out of partitioning, snapshot, rule and compiler
      applies to exactly the requests the typed subjects, resources and conditions describe,
      denies iff the request says DENY, and stays in its tenant. */
  lemma CreatePreservesMeaning(cidr: Cidr, schedules: set<string>, id: Identity,
                               version: int, cr: CreateRequest, req: Request)
    ensures var rule := SnapshotToRule(id.policyId, version, CreateSnapshot(id, cr));
            CidrsParse(cidr, rule) == NetworksParse(cidr, cr.conditions) &&
            (CidrsParse(cidr, rule) ==>
               var cp := Compiled(cidr, rule);
               (Matches(cidr, schedules, cp, req) <==> Describes(cidr, schedules, cr, req)) &&
               (cp.effect == EffectDeny <==> cr.effect == "DENY") &&
               cp.tenantId == id.orgId && cp.policyId == id.policyId && cp.mutationId == "" &&
               cp.priority == cr.priority && cp.version == version && rule.enabled)
  {
    SnapshotRoundTrip(id, version, cr, true, Subjects(cr), Resources(cr));
    var rule := SnapshotToRule(id.policyId, version, CreateSnapshot(id, cr));
    if CidrsParse(cidr, rule) {
      CompiledMeaning(cidr, schedules, rule, cr, req);
    }
  }

  // ----- the snapshot of an update -----

  /** The subject part of a rule that has these selectors. */
  predicate SelectorAdmits(subj: SubjectSelector, p: Principal) {
    && (subj.groups == [] || exists g | g in p.groups :: g in subj.groups)
    && (if subj.users != [] then p.userId in subj.users || p.email in subj.users
        else subj.apps == [] || p.userId in subj.apps)
  }

  lemma SelectorMeaning(cidr: Cidr, rule: Rule, p: Principal)
    requires rule.subject.Some? && CidrsParse(cidr, rule)
    ensures SubjectMatches(Compiled(cidr, rule), p) <==> SelectorAdmits(rule.subject.value, p)
  {
    EmptyElements(rule.subject.value.users);
    EmptyElements(rule.subject.value.groups);
    EmptyElements(rule.subject.value.apps);
  }

  lemma {:induction false} FreshName(names: seq<string>) returns (name: string)
    ensures name !in names
  {
    name := Longer(names);
    if name in names {
      LongerIsLonger(names, name);
    }
  }

  function Longer(names: seq<string>): string {
    if names == [] then "x"
    else if |names[0]| >= |Longer(names[1..])| then names[0] + "x" else Longer(names[1..])
  }

  lemma {:induction false} LongerIsLonger(names: seq<string>, n: string)
    requires n in names
    ensures |n| < |Longer(names)|
  {
    if n != names[0] {
      LongerIsLonger(names[1..], n);
    }
  }

  /** A selector with other app subjects admits somebody else. */
  lemma OtherAppsAdmitOthers(subj: SubjectSelector, apps: seq<string>) returns (p: Principal)
    requires subj.users == [] && Elements(subj.apps) != Elements(apps)
    ensures SelectorAdmits(subj, p) != SelectorAdmits(subj.(apps := apps), p)
  {
    var id: string;
    if subj.apps == [] {
      id := FreshName(apps);
      EmptyElements(apps);
    } else if apps == [] {
      id := FreshName(subj.apps);
    } else {
      id :| (id in Elements(subj.apps)) != (id in Elements(apps));
    }
    p := Principal(id, "", subj.groups, "");
    if subj.groups != [] {
      assert subj.groups[0] in p.groups;
    }
  }

  lemma UpdatedSubjects(cidr: Cidr, id: Identity, version: int, merged: CreateRequest, enabled: bool, p: Principal)
    requires CidrsParse(cidr, SnapshotToRule(id.policyId, version, UpdateSnapshot(id, merged, enabled)))
    ensures var rule := SnapshotToRule(id.policyId, version, UpdateSnapshot(id, merged, enabled));
            (SubjectMatches(Compiled(cidr, rule), p) <==>
             SelectorAdmits(Subjects(merged).(apps := Resources(merged).appIds), p)) &&
            (DescribesSubject(merged.subjects, p) <==> SelectorAdmits(Subjects(merged), p))
  {
    var subj, apps := Subjects(merged), Resources(merged).appIds;
    SnapshotRoundTrip(id, version, merged, enabled, subj.(apps := apps), Resources(merged));
    var rule := SnapshotToRule(id.policyId, version, UpdateSnapshot(id, merged, enabled));
    SelectorMeaning(cidr, rule, p);
    PlainSubjects(cidr, rule.(subject := Some(subj)), merged, p);
  }

  lemma PlainSubjects(cidr: Cidr, rule: Rule, merged: CreateRequest, p: Principal)
    requires CidrsParse(cidr, rule) && rule.subject == Some(Subjects(merged))
    ensures DescribesSubject(merged.subjects, p) <==> SelectorAdmits(Subjects(merged), p)
  {
    SelectorMeaning(cidr, rule, p);
    SubjectMeaning(Compiled(cidr, rule), merged.subjects, p);
  }

  /** Two selectors that differ only in their apps admit the same principals iff some user
      is named or the apps are the same set. */
  lemma SameAdmissionIff(subj: SubjectSelector, apps: seq<string>)
    ensures (forall p :: SelectorAdmits(subj, p) <==> SelectorAdmits(subj.(apps := apps), p)) <==>
            subj.users != [] || Elements(subj.apps) == Elements(apps)
  {
    if subj.users == [] {
      if Elements(subj.apps) == Elements(apps) {
        EmptyElements(subj.apps);
        EmptyElements(apps);
        forall v ensures v in subj.apps <==> v in apps {
          assert v in Elements(subj.apps) <==> v in Elements(apps);
        }
      } else {
        var p := OtherAppsAdmitOthers(subj, apps);
      }
    }
  }

  function UpdatedRule(id: Identity, version: int, merged: CreateRequest, enabled: bool): Rule {
    SnapshotToRule(id.policyId, version, UpdateSnapshot(id, merged, enabled))
  }

  lemma UpdateCompiles(cidr: Cidr, id: Identity, version: int, merged: CreateRequest, enabled: bool)
    ensures CidrsParse(cidr, UpdatedRule(id, version, merged, enabled)) <==> NetworksParse(cidr, merged.conditions)
  {
    SnapshotRoundTrip(id, version, merged, enabled,
                      Subjects(merged).(apps := Resources(merged).appIds), Resources(merged));
  }

  /** An updated policy keeps the meaning of its subjects for every principal iff it names a
      user (then app subjects are not looked at) or its app subjects are its app resources;
      otherwise the snapshot that is distributed admits other principals. */
  lemma UpdateKeepsSubjectsIff(cidr: Cidr, id: Identity, version: int, merged: CreateRequest, enabled: bool)
    requires NetworksParse(cidr, merged.conditions)
    ensures CidrsParse(cidr, UpdatedRule(id, version, merged, enabled))
    ensures var rule := UpdatedRule(id, version, merged, enabled);
            (forall p :: SubjectMatches(Compiled(cidr, rule), p) <==> DescribesSubject(merged.subjects, p)) <==>
            (Mentions(merged.subjects, "user") ||
             forall v :: Typed("app", v) in merged.subjects <==> Typed("app", v) in merged.resources)
  {
    UpdateCompiles(cidr, id, version, merged, enabled);
    var subj, apps := Subjects(merged), Resources(merged).appIds;
    var rule := UpdatedRule(id, version, merged, enabled);
    forall p
      ensures SubjectMatches(Compiled(cidr, rule), p) <==> SelectorAdmits(subj.(apps := apps), p)
      ensures DescribesSubject(merged.subjects, p) <==> SelectorAdmits(subj, p)
    {
      UpdatedSubjects(cidr, id, version, merged, enabled, p);
    }
    SameAdmissionIff(subj, apps);
    ElementsOfKind("user", merged.subjects);
    SameValuesIff("app", merged.subjects, merged.resources);
  }

  /** All the rest of an update keeps its meaning: resources, conditions, effect, priority, tenant
      and version, and whether the policy is enabled. */
  lemma UpdateKeepsTheRest(cidr: Cidr, schedules: set<string>, id: Identity, version: int, merged: CreateRequest,
                           enabled: bool, req: Request)
    ensures var rule := UpdatedRule(id, version, merged, enabled);
            && (CidrsParse(cidr, rule) <==> NetworksParse(cidr, merged.conditions))
            && rule.enabled == enabled
            && (CidrsParse(cidr, rule) ==>
                  var cp := Compiled(cidr, rule);
                  && (ResourceMatches(cp, req) <==> DescribesResource(merged.resources, req))
                  && (ConditionsMatch(cidr, schedules, cp, req) <==>
                        DescribesConditions(cidr, schedules, merged.conditions, req))
                  && (cp.effect == EffectDeny <==> merged.effect == "DENY")
                  && cp.tenantId == id.orgId && cp.policyId == id.policyId && cp.mutationId == ""
                  && cp.priority == merged.priority && cp.version == version)
  {
    SnapshotRoundTrip(id, version, merged, enabled,
                      Subjects(merged).(apps := Resources(merged).appIds), Resources(merged));
    var rule := UpdatedRule(id, version, merged, enabled);
    if CidrsParse(cidr, rule) {
      ResourcePart(cidr, rule, merged.resources, req);
      ConditionsMeaning(cidr, schedules, rule, merged.conditions, req);
    }
  }

  lemma SameValuesIff(kind: string, a: seq<Typed>, b: seq<Typed>)
    ensures Elements(ValuesOf(kind, a)) == Elements(ValuesOf(kind, b)) <==>
            forall v :: Typed(kind, v) in a <==> Typed(kind, v) in b
  {
    var x, y := Elements(ValuesOf(kind, a)), Elements(ValuesOf(kind, b));
    ElementsOfKind(kind, a);
    ElementsOfKind(kind, b);
    assert x == y <==> forall v :: v in x <==> v in y;
  }
}
