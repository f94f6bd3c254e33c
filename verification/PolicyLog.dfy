/**
 Policy distribution: the control plane's mutation log (policy_repo.go), delta and snapshot
 bundles (policy_distribution.go), and the gateway's store with its version checks and
 tombstones (internal/gateway/policy/store/store.go), where a delta is applied as a whole
 or not at all.
 */
module PolicyLog {
  import opened Wrappers
  import opened Rules

  datatype Op = Upsert | Delete | Unknown

  /** A mutation of the log and the record a bundle carries for it. */
  datatype Mutation = Mutation(seqNo: int, op: Op, rule: Rule)

  /** The store's key is a tenant and a policy id joined by a slash; see KeyText. */
  datatype PolicyKey = PolicyKey(tenantId: string, policyId: string)

  /** The gateway's policy and tombstone buckets. */
  datatype Buckets = Buckets(policies: map<PolicyKey, Rule>, tombs: map<PolicyKey, int>)

  const EMPTY := Buckets(map[], map[])

  function Key(r: Rule): PolicyKey {
    PolicyKey(r.tenantId, r.policyId)
  }

  function KeyText(k: PolicyKey): string {
    k.tenantId + "/" + k.policyId
  }

  /** Keys stay apart as texts as long as tenant ids (UUIDs) contain no slash. */
  lemma KeyTextIsInjective(x: PolicyKey, y: PolicyKey)
    requires '/' !in x.tenantId && '/' !in y.tenantId
    ensures KeyText(x) == KeyText(y) <==> x == y
  {
    var s, t := KeyText(x), KeyText(y);
    if s == t {
      FirstSlash(x);
      FirstSlash(y);
      assert |x.tenantId| == |y.tenantId|;
      assert s[..|x.tenantId|] == x.tenantId && t[..|y.tenantId|] == y.tenantId;
      assert s[|x.tenantId| + 1..] == x.policyId && t[|y.tenantId| + 1..] == y.policyId;
    }
  }

  lemma FirstSlash(k: PolicyKey)
    requires '/' !in k.tenantId
    ensures KeyText(k)[|k.tenantId|] == '/' && forall i | 0 <= i < |k.tenantId| :: KeyText(k)[i] != '/'
  {
  }

  // ----- one record, with the store's checks -----

  function ApplyRecord(st: Buckets, m: Mutation): Option<Buckets> {
    var k := Key(m.rule);
    if m.rule.policyId == "" then None
    else match m.op
      case Upsert =>
        if k in st.tombs && m.rule.version <= st.tombs[k] then None
        else if k in st.policies && m.rule.version <= st.policies[k].version then None
        else Some(Buckets(st.policies[k := m.rule], st.tombs - {k}))
      case Delete =>
        if k in st.tombs then None
        else Some(Buckets(st.policies - {k}, st.tombs[k := m.rule.version]))
      case Unknown => None
  }

  function ApplyAll(st: Buckets, ms: seq<Mutation>): Option<Buckets> {
    if ms == [] then Some(st)
    else
      var before := ApplyAll(st, ms[..|ms| - 1]);
      if before.None? then None else ApplyRecord(before.value, ms[|ms| - 1])
  }

  /** Every record of a bundle compiles, the ones that delete included. */
  ghost predicate Compiles(cidr: Cidr, ms: seq<Mutation>) {
    forall i | 0 <= i < |ms| :: CidrsParse(cidr, ms[i].rule)
  }

  /** What a gateway makes of a bundle: the engine refuses it when a record does not compile,
      the store when one fails its checks. */
  ghost function Take(cidr: Cidr, st: Buckets, ms: seq<Mutation>): Option<Buckets> {
    if Compiles(cidr, ms) then ApplyAll(st, ms) else None
  }

  /** The durable store: all records and the checkpoint in one transaction. */
  class BoltStore {
    var policies: map<PolicyKey, Rule>
    var tombs: map<PolicyKey, int>
    var checkpoint: int

    function State(): Buckets
      reads this
    {
      Buckets(policies, tombs)
    }

    method ApplyDelta(records: seq<Mutation>, lastSeq: int) returns (ok: bool)
      modifies this
      ensures var r := ApplyAll(old(State()), records);
              && ok == r.Some?
              && State() == (if ok then r.value else old(State()))
              && checkpoint == (if ok then lastSeq else old(checkpoint))
    {
      var pols, ts := policies, tombs;
      for i := 0 to |records|
        invariant ApplyAll(State(), records[..i]) == Some(Buckets(pols, ts))
        invariant State() == old(State()) && checkpoint == old(checkpoint)
      {
        assert records[..i + 1][..i] == records[..i];
        var m := records[i];
        var k := Key(m.rule);
        var refused := m.rule.policyId == "";
        assert k !in ts ==> ts - {k} == ts;
        match m.op {
          case Upsert =>
            if k in ts {
              refused := refused || m.rule.version <= ts[k];
              ts := ts - {k};
            }
            refused := refused || (k in pols && m.rule.version <= pols[k].version);
            pols := pols[k := m.rule];
          case Delete =>
            refused := refused || k in ts;
            pols := pols - {k};
            ts := ts[k := m.rule.version];
          case Unknown =>
            refused := true;
        }
        if refused {
          RefusalSticks(State(), records[..i + 1], records[i + 1..]);
          assert records[..i + 1] + records[i + 1..] == records;
          return false;
        }
      }
      assert records[..|records|] == records;
      policies, tombs, checkpoint := pols, ts, lastSeq;
      ok := true;
    }
  }

  lemma {:induction false} ApplyInParts(st: Buckets, a: seq<Mutation>, b: seq<Mutation>)
    ensures ApplyAll(st, a + b) ==
            if ApplyAll(st, a).None? then None else ApplyAll(ApplyAll(st, a).value, b)
    decreases |b|
  {
    if b == [] {
      assert a + b == a;
    } else {
      var n := |b| - 1;
      assert (a + b)[..|a + b| - 1] == a + b[..n];
      ApplyInParts(st, a, b[..n]);
    }
  }

  lemma RefusalSticks(st: Buckets, a: seq<Mutation>, b: seq<Mutation>)
    requires ApplyAll(st, a).None?
    ensures ApplyAll(st, a + b).None?
  {
    ApplyInParts(st, a, b);
  }

  // ----- what any bundle amounts to -----

  /** The last record of a policy in a list, -1 if there is none. */
  ghost function LastRecord(ms: seq<Mutation>, k: PolicyKey): (j: int)
    ensures -1 <= j < |ms|
    ensures j >= 0 ==> Key(ms[j].rule) == k
    ensures forall i | j < i < |ms| :: Key(ms[i].rule) != k
  {
    if ms == [] then -1
    else if Key(ms[|ms| - 1].rule) == k then |ms| - 1
    else LastRecord(ms[..|ms| - 1], k)
  }

  ghost predicate SameAt(x: Buckets, y: Buckets, k: PolicyKey) {
    && (k in x.policies <==> k in y.policies)
    && (k in x.policies ==> x.policies[k] == y.policies[k])
    && (k in x.tombs <==> k in y.tombs)
    && (k in x.tombs ==> x.tombs[k] == y.tombs[k])
  }

  /** A record may follow the last one of its policy, `before`, or what the store holds. */
  ghost predicate MayFollow(st: Buckets, before: Option<Mutation>, m: Mutation) {
    var k := Key(m.rule);
    && m.rule.policyId != ""
    && match m.op
       case Upsert =>
         if before.Some? then before.value.rule.version < m.rule.version
         else
           && (k in st.tombs ==> st.tombs[k] < m.rule.version)
           && (k in st.policies ==> st.policies[k].version < m.rule.version)
       case Delete => if before.Some? then before.value.op == Upsert else k !in st.tombs
       case Unknown => false
  }

  ghost predicate FollowsAt(st: Buckets, ms: seq<Mutation>, i: nat)
    requires i < |ms|
  {
    var j := LastRecord(ms[..i], Key(ms[i].rule));
    MayFollow(st, if j < 0 then None else Some(ms[j]), ms[i])
  }

  /** What the last record of a policy makes of it. */
  ghost predicate LeftBy(t: Buckets, k: PolicyKey, m: Mutation) {
    match m.op
    case Upsert => k in t.policies && t.policies[k] == m.rule && k !in t.tombs
    case Delete => k !in t.policies && k in t.tombs && t.tombs[k] == m.rule.version
    case Unknown => false
  }

  ghost predicate LeftByAll(t: Buckets, st: Buckets, ms: seq<Mutation>) {
    forall k :: var j := LastRecord(ms, k); if j < 0 then SameAt(t, st, k) else LeftBy(t, k, ms[j])
  }

  /** Any records at all, legal or not, on any store: the bundle is taken iff every record may
      follow the last one of its policy (versions go up, nothing is deleted twice, every record
      names a policy and a known operation), and then each policy is what its last record makes
      of it and every other one is untouched. */
  lemma {:induction false} BundleTakenIff(st: Buckets, ms: seq<Mutation>)
    ensures ApplyAll(st, ms).Some? <==> forall i: nat | i < |ms| :: FollowsAt(st, ms, i)
    ensures ApplyAll(st, ms).Some? ==> LeftByAll(ApplyAll(st, ms).value, st, ms)
    decreases |ms|
  {
    if ms != [] {
      var n := |ms| - 1;
      var front, m := ms[..n], ms[n];
      BundleTakenIff(st, front);
      forall i: nat | i < n ensures FollowsAt(st, ms, i) <==> FollowsAt(st, front, i) {
        assert ms[..i] == front[..i];
      }
      if ApplyAll(st, front).Some? {
        LastRecordDecides(ApplyAll(st, front).value, st, ms);
      }
    }
  }

  /** One record after those before it. */
  lemma LastRecordDecides(x: Buckets, st: Buckets, ms: seq<Mutation>)
    requires ms != [] && LeftByAll(x, st, ms[..|ms| - 1])
    ensures var n := |ms| - 1;
            && (ApplyRecord(x, ms[n]).Some? <==> FollowsAt(st, ms, n))
            && (ApplyRecord(x, ms[n]).Some? ==> LeftByAll(ApplyRecord(x, ms[n]).value, st, ms))
  {
    var n := |ms| - 1;
    var front, m := ms[..n], ms[n];
    var k := Key(m.rule);
    var j := LastRecord(front, k);
    if j < 0 {
      assert SameAt(x, st, k);
    } else {
      assert LeftBy(x, k, front[j]) && front[j] == ms[j];
    }
    if ApplyRecord(x, m).Some? {
      var t := ApplyRecord(x, m).value;
      forall o ensures var i := LastRecord(ms, o); if i < 0 then SameAt(t, st, o) else LeftBy(t, o, ms[i]) {
        if o != k {
          var i := LastRecord(front, o);
          assert LastRecord(ms, o) == i;
          if i >= 0 {
            assert LeftBy(x, o, front[i]);
          } else {
            assert SameAt(x, st, o);
          }
        }
      }
    }
  }

  // ----- the mutation log -----

  function FoldOne(st: Buckets, m: Mutation): Buckets {
    var k := Key(m.rule);
    if m.op.Delete? then Buckets(st.policies - {k}, st.tombs[k := m.rule.version])
    else Buckets(st.policies[k := m.rule], st.tombs - {k})
  }

  /** What mutations amount to, without any check. */
  function FoldFrom(f: Buckets, ms: seq<Mutation>): Buckets {
    if ms == [] then f else FoldOne(FoldFrom(f, ms[..|ms| - 1]), ms[|ms| - 1])
  }

  function Fold(log: seq<Mutation>): Buckets {
    FoldFrom(EMPTY, log)
  }

  /** The mutations the repository writes: Create starts a new policy at version 1, Update
      takes the next version of a live one, Delete ends a live one and carries its last document
      without a version. */
  ghost predicate LegalNext(f: Buckets, m: Mutation) {
    var k := Key(m.rule);
    m.rule.policyId != "" &&
    match m.op
    case Upsert =>
      if k in f.policies then m.rule.version == f.policies[k].version + 1
      else k !in f.tombs && m.rule.version == 1
    case Delete => k in f.policies && m.rule == f.policies[k].(version := 0)
    case Unknown => false
  }

  ghost predicate LegalFrom(f: Buckets, ms: seq<Mutation>) {
    ms == [] ||
    (LegalFrom(f, ms[..|ms| - 1]) && LegalNext(FoldFrom(f, ms[..|ms| - 1]), ms[|ms| - 1]))
  }

  /** Writers that run one after the other number the mutations of an organisation 1, 2, ... */
  ghost predicate Legal(log: seq<Mutation>) {
    LegalFrom(EMPTY, log) && forall i | 0 <= i < |log| :: log[i].seqNo == i + 1
  }

  lemma {:induction false} FromInParts(f: Buckets, a: seq<Mutation>, b: seq<Mutation>)
    ensures FoldFrom(f, a + b) == FoldFrom(FoldFrom(f, a), b)
    ensures LegalFrom(f, a + b) <==> LegalFrom(f, a) && LegalFrom(FoldFrom(f, a), b)
    decreases |b|
  {
    if b == [] {
      assert a + b == a;
    } else {
      var n := |b| - 1;
      FromInParts(f, a, b[..n]);
      assert (a + b)[..|a + b| - 1] == a + b[..n];
    }
  }

  /** Live policies have versions from 1 and no tombstone; tombstones carry version 0. */
  ghost predicate Healthy(f: Buckets) {
    && (forall k | k in f.policies :: k !in f.tombs && f.policies[k].version >= 1)
    && (forall k | k in f.tombs :: f.tombs[k] == 0)
  }

  lemma {:induction false} FoldIsHealthy(f: Buckets, ms: seq<Mutation>)
    requires Healthy(f) && LegalFrom(f, ms)
    ensures Healthy(FoldFrom(f, ms))
    decreases |ms|
  {
    if ms != [] {
      FoldIsHealthy(f, ms[..|ms| - 1]);
    }
  }

  /** GetMutationsSince, and what it is for a log numbered in order. */
  function Since(log: seq<Mutation>, g: int): seq<Mutation> {
    if log == [] then []
    else
      var n := |log| - 1;
      Since(log[..n], g) + (if log[n].seqNo > g then [log[n]] else [])
  }

  lemma {:induction false} SinceUpTo(log: seq<Mutation>, g: nat, n: nat)
    requires n <= |log| && forall i | 0 <= i < |log| :: log[i].seqNo == i + 1
    ensures Since(log[..n], g) == if g <= n then log[g..n] else []
    decreases n
  {
    if n > 0 {
      SinceUpTo(log, g, n - 1);
      assert log[..n][..n - 1] == log[..n - 1] && log[..n][n - 1] == log[n - 1];
    }
  }

  lemma SinceIsSuffix(log: seq<Mutation>, g: nat)
    requires Legal(log) && g <= |log|
    ensures Since(log, g) == log[g..]
  {
    SinceUpTo(log, g, |log|);
    assert log[..|log|] == log;
  }

  // ----- a gateway that is up to date with the log -----

  function Keys(ms: seq<Mutation>): set<PolicyKey> {
    set i | 0 <= i < |ms| :: Key(ms[i].rule)
  }

  lemma KeysStep(ms: seq<Mutation>, m: Mutation)
    ensures Keys(ms + [m]) == Keys(ms) + {Key(m.rule)}
  {
    var c := ms + [m];
    forall k | k in Keys(ms) + {Key(m.rule)} ensures k in Keys(c) {
      if k == Key(m.rule) {
        assert Key(c[|ms|].rule) == k;
      } else {
        var i :| 0 <= i < |ms| && Key(ms[i].rule) == k;
        assert Key(c[i].rule) == k;
      }
    }
  }

  /** The store holds the live policies of the fold `f`, but for those in `absent` (which the
      snapshot that filled it left out); it has no tombstone `f` does not give, and it has those
      of the recently touched policies (a snapshot brings no tombstones). */
  ghost predicate Synced(st: Buckets, f: Buckets, recent: set<PolicyKey>, absent: set<PolicyKey>) {
    && st.policies == f.policies - absent && recent !! absent
    && (forall k | k in st.tombs :: k in f.tombs && st.tombs[k] == f.tombs[k])
    && (forall k | k in f.tombs && k in recent :: k in st.tombs)
  }

  lemma SyncedStep(st: Buckets, f: Buckets, recent: set<PolicyKey>, absent: set<PolicyKey>, m: Mutation)
    requires Healthy(f) && Synced(st, f, recent, absent) && LegalNext(f, m)
    ensures ApplyRecord(st, m).Some?
    ensures Synced(ApplyRecord(st, m).value, FoldOne(f, m), recent + {Key(m.rule)}, absent - {Key(m.rule)})
  {
  }

  /** A delta that starts where the gateway is is always accepted and brings it exactly to
      the end of the delta; consecutive deltas therefore compose.  A policy that was left out
      arrives with its first mutation. */
  lemma {:induction false} CleanDeltaConverges(st: Buckets, f: Buckets, recent: set<PolicyKey>,
                                               absent: set<PolicyKey>, c: seq<Mutation>)
    requires Healthy(f) && Synced(st, f, recent, absent) && LegalFrom(f, c)
    ensures ApplyAll(st, c).Some?
    ensures Synced(ApplyAll(st, c).value, FoldFrom(f, c), recent + Keys(c), absent - Keys(c))
    decreases |c|
  {
    if c != [] {
      var n := |c| - 1;
      var front, m := c[..n], c[n];
      CleanDeltaConverges(st, f, recent, absent, front);
      LegalStep(f, front, m);
      assert front + [m] == c;
      FoldIsHealthy(f, front);
      OneMoreConverges(ApplyAll(st, front).value, FoldFrom(f, front), recent, absent, front, m);
    }
  }

  lemma OneMoreConverges(x: Buckets, g: Buckets, recent: set<PolicyKey>, absent: set<PolicyKey>,
                         front: seq<Mutation>, m: Mutation)
    requires Healthy(g) && Synced(x, g, recent + Keys(front), absent - Keys(front)) && LegalNext(g, m)
    ensures var all := front + [m];
            && ApplyRecord(x, m).Some?
            && Synced(ApplyRecord(x, m).value, FoldOne(g, m), recent + Keys(all), absent - Keys(all))
  {
    SyncedStep(x, g, recent + Keys(front), absent - Keys(front), m);
    KeysStep(front, m);
    assert recent + Keys(front) + {Key(m.rule)} == recent + Keys(front + [m]);
    assert absent - Keys(front) - {Key(m.rule)} == absent - Keys(front + [m]);
  }

  // ----- overlapping deltas -----

  ghost predicate FirstTouch(b: seq<Mutation>, i: int)
    requires 0 <= i < |b|
  {
    Key(b[i].rule) !in Keys(b[..i])
  }

  /** The repeated mutation is the first of its policy and starts over a policy that is
      deleted by now. */
  ghost predicate StartsOver(f: Buckets, m: Mutation) {
    m.op.Upsert? && Key(m.rule) in f.tombs
  }

  /** The overlap `b` only repeats policies that are deleted in `f`, each from an upsert on. */
  ghost predicate ReplayableUpTo(f: Buckets, b: seq<Mutation>, n: nat)
    requires n <= |b|
  {
    forall i | 0 <= i < n && FirstTouch(b, i) :: StartsOver(f, b[i])
  }

  ghost predicate Replayable(f: Buckets, b: seq<Mutation>) {
    ReplayableUpTo(f, b, |b|)
  }

  /** While an overlap is replayed, a policy is where the log was at that point (`g`) if the
      replay has touched it, and where the gateway was (`st`) otherwise. */
  ghost predicate Halfway(x: Buckets, st: Buckets, g: Buckets, done: set<PolicyKey>) {
    forall k :: if k in done then SameAt(x, g, k) else SameAt(x, st, k)
  }

  lemma ReplayStep(x: Buckets, st: Buckets, g: Buckets, done: set<PolicyKey>, m: Mutation)
    requires Healthy(g) && LegalNext(g, m) && Halfway(x, st, g, done)
    requires var k := Key(m.rule);
             k !in done ==> m.op.Upsert? && k in st.tombs && st.tombs[k] == 0 && k !in st.policies
    ensures ApplyRecord(x, m).Some?
    ensures Halfway(ApplyRecord(x, m).value, st, FoldOne(g, m), done + {Key(m.rule)})
  {
    var k := Key(m.rule);
    assert if k in done then SameAt(x, g, k) else SameAt(x, st, k);
    var y, h := ApplyRecord(x, m).value, FoldOne(g, m);
    forall j ensures if j in done + {k} then SameAt(y, h, j) else SameAt(y, st, j) {
      assert if j in done then SameAt(x, g, j) else SameAt(x, st, j);
    }
  }

  /** `f0` is the log where the control plane believes the gateway, `b` the overlap, and
      the gateway `st` stands at the end of `b`. */
  ghost predicate Overlap(st: Buckets, f0: Buckets, b: seq<Mutation>, absent: set<PolicyKey>) {
    Healthy(f0) && LegalFrom(f0, b) && Synced(st, FoldFrom(f0, b), Keys(b), absent)
  }

  lemma LegalPrefix(f: Buckets, ms: seq<Mutation>, i: nat)
    requires LegalFrom(f, ms) && i < |ms|
    ensures LegalFrom(f, ms[..i]) && LegalNext(FoldFrom(f, ms[..i]), ms[i])
    ensures ms[..i + 1] == ms[..i] + [ms[i]] && ms[..i + 1][..i] == ms[..i]
    ensures FoldFrom(f, ms[..i + 1]) == FoldOne(FoldFrom(f, ms[..i]), ms[i])
    ensures LegalFrom(f, ms[..i + 1]) && LegalFrom(FoldFrom(f, ms[..i + 1]), ms[i + 1..])
    ensures FoldFrom(FoldFrom(f, ms[..i + 1]), ms[i + 1..]) == FoldFrom(f, ms)
  {
    assert ms == ms[..i + 1] + ms[i + 1..];
    FromInParts(f, ms[..i + 1], ms[i + 1..]);
    assert ms[..i + 1] == ms[..i] + [ms[i]];
    LegalStep(f, ms[..i], ms[i]);
  }

  /** One mutation more. */
  lemma LegalStep(f: Buckets, front: seq<Mutation>, m: Mutation)
    ensures (front + [m])[..|front|] == front
    ensures FoldFrom(f, front + [m]) == FoldOne(FoldFrom(f, front), m)
    ensures LegalFrom(f, front + [m]) <==> LegalFrom(f, front) && LegalNext(FoldFrom(f, front), m)
  {
    assert (front + [m])[..|front|] == front;
  }

  lemma DeletedByNow(st: Buckets, f: Buckets, recent: set<PolicyKey>, absent: set<PolicyKey>, m: Mutation)
    requires Healthy(f) && Synced(st, f, recent, absent) && Key(m.rule) in recent && StartsOver(f, m)
    ensures var k := Key(m.rule); m.op.Upsert? && k in st.tombs && st.tombs[k] == 0 && k !in st.policies
  {
  }

  lemma {:induction false} ReplayUpTo(st: Buckets, f0: Buckets, b: seq<Mutation>, absent: set<PolicyKey>, i: nat)
    requires Overlap(st, f0, b, absent) && i <= |b| && ReplayableUpTo(FoldFrom(f0, b), b, i)
    ensures ApplyAll(st, b[..i]).Some?
    ensures Halfway(ApplyAll(st, b[..i]).value, st, FoldFrom(f0, b[..i]), Keys(b[..i]))
    decreases i
  {
    if i > 0 {
      var front, m := b[..i - 1], b[i - 1];
      ReplayUpTo(st, f0, b, absent, i - 1);
      LegalPrefix(f0, b, i - 1);
      FoldIsHealthy(f0, front);
      KeysStep(front, m);
      if FirstTouch(b, i - 1) {
        FoldIsHealthy(f0, b);
        DeletedByNow(st, FoldFrom(f0, b), Keys(b), absent, m);
      }
      ReplayStep(ApplyAll(st, front).value, st, FoldFrom(f0, front), Keys(front), m);
    }
  }

  /** Replaying a replayable overlap leaves the gateway where it was. */
  lemma ReplayIsNeutral(st: Buckets, f0: Buckets, b: seq<Mutation>, absent: set<PolicyKey>)
    requires Overlap(st, f0, b, absent) && Replayable(FoldFrom(f0, b), b)
    ensures ApplyAll(st, b) == Some(st)
  {
    ReplayUpTo(st, f0, b, absent, |b|);
    assert b[..|b|] == b;
    FoldIsHealthy(f0, b);
    var x := ApplyAll(st, b).value;
    EqualEverywhere(x, st, FoldFrom(f0, b), Keys(b), absent);
  }

  lemma SameEverywhere(x: Buckets, y: Buckets)
    requires forall k :: SameAt(x, y, k)
    ensures x == y
  {
    forall k
      ensures k in x.policies <==> k in y.policies
      ensures k in x.policies ==> x.policies[k] == y.policies[k]
      ensures k in x.tombs <==> k in y.tombs
      ensures k in x.tombs ==> x.tombs[k] == y.tombs[k]
    {
      assert SameAt(x, y, k);
    }
    assert x.policies == y.policies && x.tombs == y.tombs;
  }

  lemma EqualEverywhere(x: Buckets, st: Buckets, f: Buckets, recent: set<PolicyKey>, absent: set<PolicyKey>)
    requires Healthy(f) && Synced(st, f, recent, absent) && Halfway(x, st, f, recent)
    ensures x == st
  {
    forall k ensures SameAt(x, st, k) {
      assert if k in recent then SameAt(x, f, k) else SameAt(x, st, k);
    }
    SameEverywhere(x, st);
  }

  /** Once deleted, never live again; and the version of a live policy never goes back. */
  lemma {:induction false} LaterInLog(f: Buckets, b: seq<Mutation>, k: PolicyKey)
    requires Healthy(f) && LegalFrom(f, b)
    ensures var g := FoldFrom(f, b);
            && (k in f.tombs ==> k in g.tombs)
            && (k in f.policies && k in g.policies ==> f.policies[k].version <= g.policies[k].version)
            && (k in f.policies ==> k in g.policies || k in g.tombs)
    decreases |b|
  {
    if b != [] {
      LaterInLog(f, b[..|b| - 1], k);
      FoldIsHealthy(f, b[..|b| - 1]);
    }
  }

  /** A repeated mutation of a policy the replay has not touched, with `g` the log after it. */
  lemma RefusedByStore(x: Buckets, st: Buckets, g: Buckets, f: Buckets, recent: set<PolicyKey>,
                       absent: set<PolicyKey>, m: Mutation)
    requires var k := Key(m.rule);
             && SameAt(x, st, k) && k in recent && Synced(st, f, recent, absent) && !StartsOver(f, m)
             && (m.op.Upsert? ==> k in g.policies && g.policies[k].version == m.rule.version)
             && (m.op.Delete? ==> k in g.tombs)
             && (k in g.tombs ==> k in f.tombs)
             && (k in g.policies && k in f.policies ==> g.policies[k].version <= f.policies[k].version)
             && (k in g.policies ==> k in f.policies || k in f.tombs)
    ensures ApplyRecord(x, m).None?
  {
  }

  /** The first repeated policy that is not deleted by now, or whose first repeated
      mutation is its deletion, is refused. */
  lemma ReplayRefusedAt(st: Buckets, f0: Buckets, b: seq<Mutation>, absent: set<PolicyKey>, i: nat)
    requires Overlap(st, f0, b, absent) && i < |b| && ReplayableUpTo(FoldFrom(f0, b), b, i)
    requires FirstTouch(b, i) && !StartsOver(FoldFrom(f0, b), b[i])
    ensures ApplyAll(st, b[..i + 1]).None?
  {
    var front, m, g := b[..i], b[i], FoldFrom(f0, b[..i + 1]);
    var k := Key(m.rule);
    ReplayUpTo(st, f0, b, absent, i);
    LegalPrefix(f0, b, i);
    FoldIsHealthy(f0, b[..i + 1]);
    LaterInLog(g, b[i + 1..], k);
    assert k in Keys(b);
    var x := ApplyAll(st, front).value;
    assert if k in Keys(front) then SameAt(x, FoldFrom(f0, front), k) else SameAt(x, st, k);
    RefusedByStore(x, st, g, FoldFrom(f0, b), Keys(b), absent, m);
  }

  lemma FirstBad(f: Buckets, b: seq<Mutation>) returns (i: nat)
    requires !Replayable(f, b)
    ensures i < |b| && ReplayableUpTo(f, b, i) && FirstTouch(b, i) && !StartsOver(f, b[i])
  {
    i := 0;
    while ReplayableUpTo(f, b, i + 1)
      invariant i < |b| && ReplayableUpTo(f, b, i)
      decreases |b| - i
    {
      i := i + 1;
    }
  }

  lemma OverlapRefused(st: Buckets, f0: Buckets, b: seq<Mutation>, absent: set<PolicyKey>)
    requires Overlap(st, f0, b, absent) && !Replayable(FoldFrom(f0, b), b)
    ensures ApplyAll(st, b).None?
  {
    var i := FirstBad(FoldFrom(f0, b), b);
    ReplayRefusedAt(st, f0, b, absent, i);
    assert b[..i + 1] + b[i + 1..] == b;
    RefusalSticks(st, b[..i + 1], b[i + 1..]);
  }

  /** Overlapping deltas, exactly.  The gateway stands at the end of `b`, the control plane
      believes it at its start (an acknowledgement was lost or is late) and sends `b + c`.
      The store takes the delta iff the overlap is replayable, which depends on the overlap
      alone; if it takes it, the gateway stands at the end of `c`; if not, a longer delta
      from the same point is refused again. */
  lemma OverlapAcceptedIff(st: Buckets, f0: Buckets, b: seq<Mutation>, absent: set<PolicyKey>, c: seq<Mutation>)
    requires Overlap(st, f0, b, absent) && LegalFrom(FoldFrom(f0, b), c)
    ensures ApplyAll(st, b + c).Some? <==> Replayable(FoldFrom(f0, b), b)
    ensures ApplyAll(st, b + c).Some? ==>
              ApplyAll(st, b + c) == ApplyAll(st, c) &&
              Synced(ApplyAll(st, c).value, FoldFrom(FoldFrom(f0, b), c), Keys(b) + Keys(c), absent - Keys(c))
  {
    var f := FoldFrom(f0, b);
    ApplyInParts(st, b, c);
    FoldIsHealthy(f0, b);
    if Replayable(f, b) {
      ReplayIsNeutral(st, f0, b, absent);
      CleanDeltaConverges(st, f, Keys(b), absent, c);
    } else {
      OverlapRefused(st, f0, b, absent);
    }
  }

  /** The common case: if any repeated policy is still live, the delta is refused. */
  lemma LiveOverlapRefused(st: Buckets, f0: Buckets, b: seq<Mutation>, absent: set<PolicyKey>, c: seq<Mutation>, i: nat)
    requires Overlap(st, f0, b, absent) && LegalFrom(FoldFrom(f0, b), c)
    requires i < |b| && Key(b[i].rule) in st.policies
    ensures ApplyAll(st, b + c).None?
  {
    OverlapAcceptedIff(st, f0, b, absent, c);
    FoldIsHealthy(f0, b);
    var j := FirstOf(b, i);
    assert !StartsOver(FoldFrom(f0, b), b[j]);
  }

  lemma FirstOf(b: seq<Mutation>, i: nat) returns (j: nat)
    requires i < |b|
    ensures j < |b| && Key(b[j].rule) == Key(b[i].rule) && FirstTouch(b, j)
  {
    j := i;
    while !FirstTouch(b, j)
      invariant j < |b| && Key(b[j].rule) == Key(b[i].rule)
      decreases j
    {
      var n :| 0 <= n < j && Key(b[..j][n].rule) == Key(b[j].rule);
      j := n;
    }
  }

  // ----- snapshots -----

  /** The policies a snapshot bundle carries: live and enabled ones, at their last version. */
  function SnapshotOf(f: Buckets): map<PolicyKey, Rule> {
    map k | k in f.policies && f.policies[k].enabled :: f.policies[k]
  }

  ghost predicate DistinctUpserts(ms: seq<Mutation>) {
    && (forall i | 0 <= i < |ms| :: ms[i].op.Upsert? && ms[i].rule.policyId != "")
    && (forall i, j | 0 <= i < j < |ms| :: Key(ms[i].rule) != Key(ms[j].rule))
  }

  /** A bundle that upserts exactly these policies, each once, in any order. */
  ghost predicate Lists(ms: seq<Mutation>, policies: map<PolicyKey, Rule>) {
    && DistinctUpserts(ms)
    && Keys(ms) == policies.Keys
    && forall i | 0 <= i < |ms| :: Key(ms[i].rule) in policies && policies[Key(ms[i].rule)] == ms[i].rule
  }

  ghost predicate Newer(st: Buckets, r: Rule) {
    var k := Key(r);
    && (k in st.tombs ==> st.tombs[k] < r.version)
    && (k in st.policies ==> st.policies[k].version < r.version)
  }

  lemma {:induction false} UpsertsApply(st: Buckets, ms: seq<Mutation>)
    requires DistinctUpserts(ms)
    ensures ApplyAll(st, ms).Some? <==> forall i | 0 <= i < |ms| :: Newer(st, ms[i].rule)
    ensures ApplyAll(st, ms).Some? ==> Merged(ApplyAll(st, ms).value, st, ms)
    decreases |ms|
  {
    if ms != [] {
      var n := |ms| - 1;
      var front, last := ms[..n], ms[n];
      UpsertsApply(st, front);
      assert ms == front + [last];
      KeysStep(front, last);
      if ApplyAll(st, front).Some? {
        var x := ApplyAll(st, front).value;
        assert SameAt(x, st, Key(last.rule));
        if Newer(st, last.rule) {
          MergedStep(x, st, front, last);
        }
      }
    }
  }

  ghost predicate Merged(t: Buckets, st: Buckets, ms: seq<Mutation>) {
    && (forall k | k !in Keys(ms) :: SameAt(t, st, k))
    && (forall i | 0 <= i < |ms| ::
          Key(ms[i].rule) in t.policies && t.policies[Key(ms[i].rule)] == ms[i].rule && Key(ms[i].rule) !in t.tombs)
  }

  lemma MergedStep(x: Buckets, st: Buckets, front: seq<Mutation>, last: Mutation)
    requires Merged(x, st, front) && DistinctUpserts(front + [last]) && Newer(x, last.rule)
    ensures ApplyRecord(x, last).Some? && Merged(ApplyRecord(x, last).value, st, front + [last])
  {
    KeysStep(front, last);
    var ms, t := front + [last], ApplyRecord(x, last).value;
    assert ms[|front|] == last;
    forall i | 0 <= i < |ms|
      ensures Key(ms[i].rule) in t.policies && t.policies[Key(ms[i].rule)] == ms[i].rule && Key(ms[i].rule) !in t.tombs
    {
      if i < |front| {
        assert Key(ms[i].rule) != Key(ms[|front|].rule) && front[i] == ms[i];
      }
    }
    forall k | k !in Keys(ms) ensures SameAt(t, st, k) {
      assert SameAt(x, st, k);
    }
  }

  lemma SnapshotMerged(st: Buckets, ms: seq<Mutation>, snap: map<PolicyKey, Rule>)
    requires Lists(ms, snap) && ApplyAll(st, ms).Some?
    ensures ApplyAll(st, ms).value.policies == st.policies + snap
    ensures forall k | k in ApplyAll(st, ms).value.tombs :: k in st.tombs
  {
    UpsertsApply(st, ms);
    var t := ApplyAll(st, ms).value;
    forall k
      ensures k in t.policies <==> k in (st.policies + snap)
      ensures k in t.policies ==> t.policies[k] == (st.policies + snap)[k]
      ensures k in t.tombs ==> k in st.tombs
    {
      if k in Keys(ms) {
        var i :| 0 <= i < |ms| && Key(ms[i].rule) == k;
      } else {
        assert SameAt(t, st, k);
      }
    }
  }

  /** The live policies a snapshot leaves out. */
  function Disabled(f: Buckets): set<PolicyKey> {
    set k | k in f.policies && !f.policies[k].enabled
  }

  /** A snapshot fills an empty gateway with the live policies but for the disabled ones, while
      deltas carry those and the gateway enforces them; so the gateway holds every live policy
      iff none is disabled. */
  lemma SnapshotSyncsIff(f: Buckets, ms: seq<Mutation>)
    requires Healthy(f) && Lists(ms, SnapshotOf(f))
    ensures ApplyAll(EMPTY, ms) == Some(Buckets(SnapshotOf(f), map[]))
    ensures Synced(Buckets(SnapshotOf(f), map[]), f, {}, Disabled(f))
    ensures forall k :: k in SnapshotOf(f) <==> k in f.policies && f.policies[k].enabled
    ensures SnapshotOf(f) == f.policies <==> forall k | k in f.policies :: f.policies[k].enabled
  {
    UpsertsApply(EMPTY, ms);
    SnapshotMerged(EMPTY, ms, SnapshotOf(f));
    var t := ApplyAll(EMPTY, ms).value;
    assert EMPTY.policies + SnapshotOf(f) == SnapshotOf(f);
    assert t.tombs == map[];
    SnapshotIsSynced(f);
  }

  lemma SnapshotIsSynced(f: Buckets)
    ensures SnapshotOf(f) == f.policies - Disabled(f)
    ensures SnapshotOf(f) == f.policies <==> Disabled(f) == {}
  {
    if k :| k in Disabled(f) {
      assert k !in SnapshotOf(f);
    }
  }

  /** A snapshot on a gateway that already stands at `f`, taken after `b` more mutations, is
      refused as soon as one of its policies did not change since; and if it is taken, every
      policy deleted or disabled since stays on the gateway. */
  lemma SnapshotOnSyncedStore(st: Buckets, f: Buckets, absent: set<PolicyKey>, b: seq<Mutation>, ms: seq<Mutation>)
    requires Healthy(f) && LegalFrom(f, b) && Synced(st, f, {}, absent) && Lists(ms, SnapshotOf(FoldFrom(f, b)))
    ensures var snap := SnapshotOf(FoldFrom(f, b));
            ApplyAll(st, ms).Some? <==>
            forall k | k in snap && k in st.policies :: st.policies[k].version < snap[k].version
    ensures ApplyAll(st, ms).Some? ==> ApplyAll(st, ms).value.policies == st.policies + SnapshotOf(FoldFrom(f, b))
  {
    var g := FoldFrom(f, b);
    var snap := SnapshotOf(g);
    UpsertsApply(st, ms);
    FoldIsHealthy(f, b);
    forall k | k in snap ensures k !in st.tombs {
      LaterInLog(f, b, k);
    }
    if forall i | 0 <= i < |ms| :: Newer(st, ms[i].rule) {
      forall k | k in snap && k in st.policies ensures st.policies[k].version < snap[k].version {
        assert k in Keys(ms);
        var i :| 0 <= i < |ms| && Key(ms[i].rule) == k;
        assert Newer(st, ms[i].rule);
      }
      SnapshotMerged(st, ms, snap);
    }
  }
}
