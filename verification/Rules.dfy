/**
 Policy rules as they travel to a gateway, the compiled form the gateway's engine uses, and
 the matcher (internal/gateway/policy/compiledpolicy.go, Compile in engine.go).
 */
module Rules {
  import opened Wrappers
  import opened Glob

  datatype EffectEnum = Unspecified | Allow | Deny

  datatype SubjectSelector = SubjectSelector(users: seq<string>, groups: seq<string>, apps: seq<string>)

  datatype ResourceSelector = ResourceSelector(appIds: seq<string>, paths: seq<string>, methods: seq<string>)

  datatype MFACondition = MFACondition(required: bool, minLevel: string)

  datatype NetworkCondition = NetworkCondition(
    allowedCountries: seq<string>, blockedCountries: seq<string>,
    allowedCidrs: seq<string>, blockedCidrs: seq<string>, blockTor: bool)

  /** `device` carries the accepted postures, `time` the schedule name. */
  datatype Conditions = Conditions(
    mfa: Option<MFACondition>, device: Option<seq<string>>,
    network: Option<NetworkCondition>, time: Option<string>)

  /** The time of creation is kept as its text. */
  datatype Rule = Rule(
    policyId: string, mutationId: string, tenantId: string, name: string, description: string,
    effect: EffectEnum, priority: int, version: int, enabled: bool, createdAt: string,
    subject: Option<SubjectSelector>, resource: Option<ResourceSelector>, conditions: Option<Conditions>)

  datatype Net = Net(base: nat, prefix: nat)

  /** The CIDR library: parsing a text, and whether a network contains an address. */
  datatype Cidr = Cidr(parse: string -> Option<Net>, contains: (Net, nat) -> bool)

  datatype Effect = EffectAllow | EffectDeny

  datatype CompiledPolicy = CompiledPolicy(
    policyId: string, mutationId: string, tenantId: string,
    effect: Effect, priority: int, version: int,
    appIds: set<string>, groups: set<string>, users: set<string>, sourceApps: set<string>,
    methods: set<string>, pathMatchers: seq<PathMatcher>,
    countries: set<string>, blockCountries: set<string>, allowedNets: seq<Net>, blockedNets: seq<Net>,
    blockTor: bool, requireMfa: bool, minMfaLevel: string, requirePosture: seq<string>,
    schedule: Option<string>)

  datatype Principal = Principal(userId: string, email: string, groups: seq<string>, mfaLevel: string)

  datatype Request = Request(
    tenantId: string, principal: Principal, posture: string,
    sourceIp: nat, country: string, torExit: bool,
    appId: string, path: string, verb: string)

  // ----- compiling a rule -----

  function Elements(items: seq<string>): set<string> {
    set s | s in items
  }

  method MakeSet(items: seq<string>) returns (m: set<string>)
    ensures m == Elements(items)
  {
    m := {};
    for i := 0 to |items|
      invariant m == Elements(items[..i])
    {
      assert items[..i + 1] == items[..i] + [items[i]];
      m := m + {items[i]};
    }
    assert items[..|items|] == items;
  }

  /** Nothing when some text does not parse. */
  function ParseAll(cidr: Cidr, texts: seq<string>): Option<seq<Net>> {
    if forall t | t in texts :: cidr.parse(t).Some?
    then Some(seq(|texts|, i requires 0 <= i < |texts| && texts[i] in texts => cidr.parse(texts[i]).value))
    else None
  }

  /** The first text that does not parse. */
  function FirstUnparsable(cidr: Cidr, texts: seq<string>): (bad: Option<string>)
    ensures bad.None? <==> ParseAll(cidr, texts).Some?
  {
    if texts == [] then None
    else
      assert texts == [texts[0]] + texts[1..];
      if cidr.parse(texts[0]).None? then Some(texts[0]) else FirstUnparsable(cidr, texts[1..])
  }

  lemma {:induction false} FirstUnparsableAt(cidr: Cidr, texts: seq<string>, i: nat)
    requires i < |texts| && cidr.parse(texts[i]).None?
    requires forall j | 0 <= j < i :: cidr.parse(texts[j]).Some?
    ensures FirstUnparsable(cidr, texts) == Some(texts[i])
    decreases i
  {
    if i > 0 {
      FirstUnparsableAt(cidr, texts[1..], i - 1);
    }
  }

  /** All networks in order, or the first text that does not parse. */
  method ParseCidrs(cidr: Cidr, texts: seq<string>) returns (r: Result<seq<Net>, string>)
    ensures r.Ok? <==> ParseAll(cidr, texts).Some?
    ensures r.Ok? ==> r.value == ParseAll(cidr, texts).value
    ensures r.Err? ==> Some(r.error) == FirstUnparsable(cidr, texts)
  {
    var nets: seq<Net> := [];
    for i := 0 to |texts|
      invariant |nets| == i
      invariant forall j | 0 <= j < i :: cidr.parse(texts[j]) == Some(nets[j])
    {
      var net := cidr.parse(texts[i]);
      if net.None? {
        FirstUnparsableAt(cidr, texts, i);
        return Err(texts[i]);
      }
      nets := nets + [net.value];
    }
    r := Ok(nets);
    assert nets == ParseAll(cidr, texts).value;
  }

  function PathMatchers(paths: seq<string>): seq<PathMatcher> {
    seq(|paths|, i requires 0 <= i < |paths| => CompilePathMatcher(paths[i]))
  }

  method CompilePaths(paths: seq<string>) returns (matchers: seq<PathMatcher>)
    ensures matchers == PathMatchers(paths)
  {
    matchers := [];
    for i := 0 to |paths|
      invariant |matchers| == i
      invariant forall j | 0 <= j < i :: matchers[j] == CompilePathMatcher(paths[j])
    {
      matchers := matchers + [CompilePathMatcher(paths[i])];
    }
  }

  predicate CidrsParse(cidr: Cidr, rule: Rule) {
    (rule.conditions.Some? && rule.conditions.value.network.Some?) ==>
      var net := rule.conditions.value.network.value;
      (forall t | t in net.allowedCidrs :: cidr.parse(t).Some?) &&
      (forall t | t in net.blockedCidrs :: cidr.parse(t).Some?)
  }

  /** The compiled form of a rule whose networks parse. */
  function Compiled(cidr: Cidr, rule: Rule): CompiledPolicy
    requires CidrsParse(cidr, rule)
  {
    var subj := if rule.subject.Some? then rule.subject.value else SubjectSelector([], [], []);
    var res := if rule.resource.Some? then rule.resource.value else ResourceSelector([], [], []);
    var cond := if rule.conditions.Some? then rule.conditions.value else Conditions(None, None, None, None);
    var mfa := if cond.mfa.Some? then cond.mfa.value else MFACondition(false, "");
    var net := if cond.network.Some? then cond.network.value else NetworkCondition([], [], [], [], false);
    CompiledPolicy(
      rule.policyId, rule.mutationId, rule.tenantId,
      if rule.effect.Deny? then EffectDeny else EffectAllow, rule.priority, rule.version,
      Elements(res.appIds), Elements(subj.groups), Elements(subj.users), Elements(subj.apps),
      if res.methods == [] then {"*"} else Elements(res.methods),
      PathMatchers(res.paths),
      Elements(net.allowedCountries), Elements(net.blockedCountries),
      ParseAll(cidr, net.allowedCidrs).value, ParseAll(cidr, net.blockedCidrs).value,
      net.blockTor, mfa.required, mfa.minLevel,
      if cond.device.Some? then cond.device.value else [], cond.time)
  }

  /** The text at fault and the list it is in; the error names the policy as well. */
  datatype CompileError = InvalidAllowedCidr(text: string) | InvalidBlockedCidr(text: string)

  /** The network part of a compiled policy. */
  datatype Networks = Networks(
    countries: set<string>, blockCountries: set<string>,
    allowedNets: seq<Net>, blockedNets: seq<Net>, blockTor: bool)

  function NetworkPart(rule: Rule): NetworkCondition {
    if rule.conditions.Some? && rule.conditions.value.network.Some? then rule.conditions.value.network.value
    else NetworkCondition([], [], [], [], false)
  }

  /** Why a rule does not compile: the first bad text of the allowed list, else of the blocked. */
  function CompileFailure(cidr: Cidr, nc: NetworkCondition): Option<CompileError> {
    var allowed, blocked := FirstUnparsable(cidr, nc.allowedCidrs), FirstUnparsable(cidr, nc.blockedCidrs);
    if allowed.Some? then Some(InvalidAllowedCidr(allowed.value))
    else if blocked.Some? then Some(InvalidBlockedCidr(blocked.value))
    else None
  }

  method CompileNetworks(cidr: Cidr, nc: NetworkCondition) returns (r: Result<Networks, CompileError>)
    ensures r.Ok? <==> ParseAll(cidr, nc.allowedCidrs).Some? && ParseAll(cidr, nc.blockedCidrs).Some?
    ensures r.Ok? ==>
              r.value == Networks(Elements(nc.allowedCountries), Elements(nc.blockedCountries),
                                  ParseAll(cidr, nc.allowedCidrs).value, ParseAll(cidr, nc.blockedCidrs).value,
                                  nc.blockTor)
    ensures r.Err? ==> CompileFailure(cidr, nc) == Some(r.error)
  {
    var countries := MakeSet(nc.allowedCountries);
    var blockCountries := MakeSet(nc.blockedCountries);
    var allowed := ParseCidrs(cidr, nc.allowedCidrs);
    if allowed.Err? {
      return Err(InvalidAllowedCidr(allowed.error));
    }
    var blocked := ParseCidrs(cidr, nc.blockedCidrs);
    if blocked.Err? {
      return Err(InvalidBlockedCidr(blocked.error));
    }
    r := Ok(Networks(countries, blockCountries, allowed.value, blocked.value, nc.blockTor));
  }

  /** The conditions other than networks; what is absent asks for nothing. */
  method CompileConditions(conditions: Option<Conditions>)
    returns (requireMfa: bool, minLevel: string, postures: seq<string>, schedule: Option<string>)
    ensures var cond := if conditions.Some? then conditions.value else Conditions(None, None, None, None);
            && requireMfa == (cond.mfa.Some? && cond.mfa.value.required)
            && minLevel == (if cond.mfa.Some? then cond.mfa.value.minLevel else "")
            && postures == (if cond.device.Some? then cond.device.value else [])
            && schedule == cond.time
  {
    requireMfa, minLevel, postures, schedule := false, "", [], None;
    if conditions.Some? {
      if conditions.value.mfa.Some? {
        requireMfa, minLevel := conditions.value.mfa.value.required, conditions.value.mfa.value.minLevel;
      }
      if conditions.value.device.Some? {
        postures := conditions.value.device.value;
      }
      schedule := conditions.value.time;
    }
  }

  /** The resource part; no methods at all stand for every method. */
  method CompileResource(res: Option<ResourceSelector>)
    returns (appIds: set<string>, methods: set<string>, matchers: seq<PathMatcher>)
    ensures var rs := if res.Some? then res.value else ResourceSelector([], [], []);
            && appIds == Elements(rs.appIds) && matchers == PathMatchers(rs.paths)
            && methods == if rs.methods == [] then {"*"} else Elements(rs.methods)
  {
    appIds, methods, matchers := {}, {}, [];
    if res.Some? {
      appIds := MakeSet(res.value.appIds);
      methods := MakeSet(res.value.methods);
      matchers := CompilePaths(res.value.paths);
      EmptyElements(res.value.methods);
    }
    if methods == {} {
      methods := {"*"};
    }
  }

  /** Builds the compiled policy field by field; fails iff a network text does not parse. */
  method Compile(cidr: Cidr, rule: Rule) returns (r: Result<CompiledPolicy, CompileError>)
    ensures r.Ok? <==> CidrsParse(cidr, rule)
    ensures r.Ok? ==> r.value == Compiled(cidr, rule)
    ensures r.Err? ==> CompileFailure(cidr, NetworkPart(rule)) == Some(r.error)
  {
    NothingToCompile(cidr);
    var eff := if rule.effect.Deny? then EffectDeny else EffectAllow;
    var groups, users, sourceApps := {}, {}, {};
    if rule.subject.Some? {
      groups := MakeSet(rule.subject.value.groups);
      users := MakeSet(rule.subject.value.users);
      sourceApps := MakeSet(rule.subject.value.apps);
    }
    var appIds, methods, matchers := CompileResource(rule.resource);
    var requireMfa, minLevel, postures, schedule := CompileConditions(rule.conditions);
    var nets := Networks({}, {}, [], [], false);
    if rule.conditions.Some? && rule.conditions.value.network.Some? {
      var compiled := CompileNetworks(cidr, rule.conditions.value.network.value);
      if compiled.Err? {
        return Err(compiled.error);
      }
      nets := compiled.value;
    }
    r := Ok(CompiledPolicy(
      rule.policyId, rule.mutationId, rule.tenantId, eff, rule.priority, rule.version,
      appIds, groups, users, sourceApps, methods, matchers,
      nets.countries, nets.blockCountries, nets.allowedNets, nets.blockedNets,
      nets.blockTor, requireMfa, minLevel, postures, schedule));
  }

  lemma NothingToCompile(cidr: Cidr)
    ensures Elements([]) == {} && PathMatchers([]) == [] && ParseAll(cidr, []) == Some([])
  {
    assert ParseAll(cidr, []).value == [];
  }

  lemma EmptyElements(items: seq<string>)
    ensures Elements(items) == {} <==> items == []
  {
    if items != [] {
      assert items[0] in Elements(items);
    }
  }

  // ----- the matcher -----

  predicate SubjectMatches(cp: CompiledPolicy, p: Principal) {
    && (cp.groups == {} || exists g | g in p.groups :: g in cp.groups)
    && (if cp.users != {} then p.userId in cp.users || p.email in cp.users
        else cp.sourceApps == {} || p.userId in cp.sourceApps)
  }

  method MatchesSubject(cp: CompiledPolicy, p: Principal) returns (ok: bool)
    ensures ok == SubjectMatches(cp, p)
  {
    if cp.groups != {} {
      var matched := false;
      for i := 0 to |p.groups|
        invariant matched ==> exists g | g in p.groups :: g in cp.groups
        invariant !matched ==> forall j | 0 <= j < i :: p.groups[j] !in cp.groups
      {
        if p.groups[i] in cp.groups {
          matched := true;
          break;
        }
      }
      if !matched {
        return false;
      }
    }
    if cp.users != {} {
      return p.userId in cp.users || p.email in cp.users;
    }
    if cp.sourceApps != {} {
      if p.userId !in cp.sourceApps {
        return false;
      }
    }
    return true;
  }

  predicate ResourceMatches(cp: CompiledPolicy, req: Request) {
    && (cp.appIds == {} || req.appId in cp.appIds || "*" in cp.appIds)
    && (cp.methods == {} || req.verb in cp.methods || "*" in cp.methods)
    && (cp.pathMatchers == [] || exists pm | pm in cp.pathMatchers :: Match(pm, req.path))
  }

  method MatchesResource(cp: CompiledPolicy, req: Request) returns (ok: bool)
    ensures ok == ResourceMatches(cp, req)
  {
    if cp.appIds != {} && req.appId !in cp.appIds && "*" !in cp.appIds {
      return false;
    }
    if cp.methods != {} && req.verb !in cp.methods && "*" !in cp.methods {
      return false;
    }
    if |cp.pathMatchers| > 0 {
      var matched := false;
      for i := 0 to |cp.pathMatchers|
        invariant matched ==> exists pm | pm in cp.pathMatchers :: Match(pm, req.path)
        invariant !matched ==> forall j | 0 <= j < i :: !Match(cp.pathMatchers[j], req.path)
      {
        if Match(cp.pathMatchers[i], req.path) {
          matched := true;
          break;
        }
      }
      if !matched {
        return false;
      }
    }
    return true;
  }

  /** Unknown levels rank like no level at all. */
  function MfaRank(level: string): nat {
    if level == "totp" then 1 else if level == "push" then 2 else if level == "webauthn" then 3 else 0
  }

  /** `schedules` are the names the engine has a schedule for; every schedule counts as
      active, as in the code. */
  predicate ConditionsMatch(cidr: Cidr, schedules: set<string>, cp: CompiledPolicy, req: Request) {
    && (cp.requireMfa ==>
          req.principal.mfaLevel != "" &&
          (cp.minMfaLevel != "" ==> MfaRank(req.principal.mfaLevel) >= MfaRank(cp.minMfaLevel)))
    && (cp.requirePosture == [] || req.posture in cp.requirePosture)
    && !(cp.blockTor && req.torExit)
    && (cp.countries == {} || req.country in cp.countries)
    && req.country !in cp.blockCountries
    && (cp.allowedNets == [] || exists n | n in cp.allowedNets :: cidr.contains(n, req.sourceIp))
    && (forall n | n in cp.blockedNets :: !cidr.contains(n, req.sourceIp))
    && (cp.schedule.Some? ==> cp.schedule.value in schedules)
  }

  method AnyContains(cidr: Cidr, nets: seq<Net>, ip: nat) returns (found: bool)
    ensures found == exists n | n in nets :: cidr.contains(n, ip)
  {
    for i := 0 to |nets|
      invariant forall j | 0 <= j < i :: !cidr.contains(nets[j], ip)
    {
      if cidr.contains(nets[i], ip) {
        return true;
      }
    }
    return false;
  }

  method MatchesConditions(cidr: Cidr, schedules: set<string>, cp: CompiledPolicy, req: Request) returns (ok: bool)
    ensures ok == ConditionsMatch(cidr, schedules, cp, req)
  {
    if cp.requireMfa {
      if req.principal.mfaLevel == "" {
        return false;
      }
      if cp.minMfaLevel != "" && !(MfaRank(req.principal.mfaLevel) >= MfaRank(cp.minMfaLevel)) {
        return false;
      }
    }
    if |cp.requirePosture| > 0 {
      var matched := false;
      for i := 0 to |cp.requirePosture|
        invariant matched ==> req.posture in cp.requirePosture
        invariant !matched ==> req.posture !in cp.requirePosture[..i]
      {
        if req.posture == cp.requirePosture[i] {
          matched := true;
          break;
        }
      }
      if !matched {
        return false;
      }
    }
    if cp.blockTor && req.torExit {
      return false;
    }
    if cp.countries != {} && req.country !in cp.countries {
      return false;
    }
    if cp.blockCountries != {} && req.country in cp.blockCountries {
      return false;
    }
    if |cp.allowedNets| > 0 {
      var allowed := AnyContains(cidr, cp.allowedNets, req.sourceIp);
      if !allowed {
        return false;
      }
    }
    var blocked := AnyContains(cidr, cp.blockedNets, req.sourceIp);
    if blocked {
      return false;
    }
    if cp.schedule.Some? && cp.schedule.value !in schedules {
      return false;
    }
    return true;
  }

  /** A compiled policy applies to a request. */
  predicate Matches(cidr: Cidr, schedules: set<string>, cp: CompiledPolicy, req: Request) {
    SubjectMatches(cp, req.principal) && ResourceMatches(cp, req) && ConditionsMatch(cidr, schedules, cp, req)
  }
}
