/**
 Validation of the environment graph: the loop compares each environment only with what it has recorded so far, and
 with the last one seen under a shared domain, yet accepts exactly the graphs that are collision-free for all pairs.
 */
module EnvironmentGraph {
  import opened Option

  datatype Environment = Environment(
    name: string,
    stack: string,
    production: bool,
    isProtected: Option<bool>,
    branch: string,
    domain: string,
    dbName: string,
    filestorePath: string,
    filestoreVolume: Option<string>,
    dbSelector: bool,
    cloneFrom: Option<string>,
    promotesTo: Option<string>,
    rollout: string)

  datatype Runtime = DockerCompose | Kubernetes(nginxCanary: bool)

  // The settings that refer to environments; None when the feature is off.
  datatype Settings = Settings(
    runtime: Runtime,
    pitr: Option<string>,
    snapshots: Option<string>,
    snapshotsBeforeDeploy: bool,
    gitopsSource: Option<string>,
    simulated: Option<string>,
    tempSuffix: string)

  // ---------------------------------------------------------------- what must hold

  predicate Defined(envs: seq<Environment>, name: string) {
    exists i :: 0 <= i < |envs| && envs[i].name == name
  }

  // is_protected
  predicate Protected(e: Environment) {
    e.isProtected.GetOr(e.name == "production" || e.production)
  }

  // Python truth of an optional string.
  predicate Given(s: Option<string>) {
    s.Some? && s.value != ""
  }

  predicate SettingsOk(s: Settings, envs: seq<Environment>) {
    && (s.pitr.Some? ==> Defined(envs, s.pitr.value))
    && (s.snapshots.Some? ==> Defined(envs, s.snapshots.value))
    && (s.snapshots.Some? && s.snapshotsBeforeDeploy ==>
          forall i :: 0 <= i < |envs| && envs[i].name == s.snapshots.value ==> Protected(envs[i]))
    && (s.gitopsSource.Some? ==> s.runtime.Kubernetes? && Defined(envs, s.gitopsSource.value))
    && (s.simulated.Some? ==> s.runtime.Kubernetes? && Defined(envs, s.simulated.value))
  }

  predicate LocalOk(s: Settings, envs: seq<Environment>, e: Environment) {
    && (s.runtime.DockerCompose? ==> e.rollout == "recreate")
    && (s.runtime.Kubernetes? && e.rollout == "canary" ==> s.runtime.nginxCanary)
    && !(e.name == "production" && Given(e.cloneFrom))
    && (Given(e.cloneFrom) ==> Defined(envs, e.cloneFrom.value))
    && e.cloneFrom != Some(e.name)
    && (Given(e.promotesTo) ==> Defined(envs, e.promotesTo.value))
    && e.promotesTo != Some(e.name)
  }

  function FilestoreIdentity(e: Environment): string {
    if Given(e.filestoreVolume) then "volume:" + e.filestoreVolume.value + ":" + e.filestorePath
    else "path:" + e.filestorePath
  }

  // Two environments may share a domain only in one multi-database stack.
  predicate SharedStack(e: Environment, f: Environment) {
    e.stack == f.stack && e.dbSelector && f.dbSelector
  }

  predicate PairOk(e: Environment, f: Environment) {
    && e.dbName != f.dbName
    && FilestoreIdentity(e) != FilestoreIdentity(f)
    && e.branch != f.branch
    && (e.domain == f.domain ==> SharedStack(e, f))
  }

  predicate TempOk(s: Settings, e: Environment, f: Environment) {
    e.dbName + s.tempSuffix != f.dbName
  }

  // The all-pairs specification.
  predicate Acceptable(s: Settings, envs: seq<Environment>) {
    && SettingsOk(s, envs)
    && (forall i :: 0 <= i < |envs| ==> LocalOk(s, envs, envs[i]))
    && (forall i, j :: 0 <= i < j < |envs| ==> PairOk(envs[i], envs[j]))
    && (forall i, j :: 0 <= i < |envs| && 0 <= j < |envs| && i != j ==> TempOk(s, envs[i], envs[j]))
  }

  // ---------------------------------------------------------------- the validator

  // A seen_* dictionary after n environments: where each value was last seen.
  function LastSeen(values: seq<string>, n: nat): map<string, nat>
    requires n <= |values|
  {
    if n == 0 then map[] else LastSeen(values, n - 1)[values[n - 1] := n - 1]
  }

  lemma {:induction false} LastSeenIsLast(values: seq<string>, n: nat, key: string)
    requires n <= |values|
    ensures key in LastSeen(values, n) ==> LastSeen(values, n)[key] < n && values[LastSeen(values, n)[key]] == key
    ensures forall i :: 0 <= i < n && values[i] == key ==> key in LastSeen(values, n) && i <= LastSeen(values, n)[key]
  {
    if n > 0 {
      LastSeenIsLast(values, n - 1, key);
    }
  }

  // The four dictionaries of the loop.
  datatype Seen = Seen(dbNames: map<string, nat>, filestores: map<string, nat>, domains: map<string, nat>,
      branches: map<string, nat>) {
    function Record(e: Environment, n: nat): Seen {
      Seen(dbNames[e.dbName := n], filestores[FilestoreIdentity(e) := n], domains[e.domain := n],
          branches[e.branch := n])
    }
  }

  // The connection settings the validator fills in from the database section.
  datatype Connection = Connection(host: string, user: string, passwordEnv: string)

  function Column(envs: seq<Environment>, f: Environment -> string): (r: seq<string>)
    ensures |r| == |envs| && forall i :: 0 <= i < |envs| ==> r[i] == f(envs[i])
  {
    seq(|envs|, i requires 0 <= i < |envs| => f(envs[i]))
  }

  class OdooCtlConfig {
    const settings: Settings
    const environments: seq<Environment>
    const postgres: Connection
    var dbHost: Option<string>
    var dbUser: Option<string>
    var dbPasswordEnv: Option<string>

    constructor (settings: Settings, environments: seq<Environment>, postgres: Connection,
                 host: Option<string>, user: Option<string>, passwordEnv: Option<string>)
      ensures this.settings == settings && this.environments == environments && this.postgres == postgres
      ensures dbHost == host && dbUser == user && dbPasswordEnv == passwordEnv
    {
      this.settings, this.environments, this.postgres := settings, environments, postgres;
      dbHost, dbUser, dbPasswordEnv := host, user, passwordEnv;
    }

    // Accepts exactly the acceptable graphs; explicit connection settings win over the defaults.
    method ValidateEnvironmentGraph() returns (ok: bool)
      modifies this
      ensures ok <==> Acceptable(settings, environments)
      ensures dbHost == Some(old(dbHost).GetOr(postgres.host))
      ensures dbUser == Some(old(dbUser).GetOr(postgres.user))
      ensures dbPasswordEnv == Some(old(dbPasswordEnv).GetOr(postgres.passwordEnv))
    {
      if dbHost.None? {
        dbHost := Some(postgres.host);
      }
      if dbUser.None? {
        dbUser := Some(postgres.user);
      }
      if dbPasswordEnv.None? {
        dbPasswordEnv := Some(postgres.passwordEnv);
      }
      if !SettingsOk(settings, environments) {
        return false;
      }
      var fine, seen := CheckEnvironments();
      if !fine {
        return false;
      }
      SeenIsLastSeen(|environments|);
      ok := CheckTemporaryNames(seen.dbNames);
    }

    // The first loop, with its four dictionaries.
    method CheckEnvironments() returns (ok: bool, seen: Seen)
      ensures ok <==> (forall i :: 0 <= i < |environments| ==> LocalOk(settings, environments, environments[i]))
                      && (forall i, j :: 0 <= i < j < |environments| ==> PairOk(environments[i], environments[j]))
      ensures ok ==> seen == SeenAfter(|environments|)
    {
      seen := Seen(map[], map[], map[], map[]);
      for n := 0 to |environments|
        invariant forall i :: 0 <= i < n ==> LocalOk(settings, environments, environments[i])
        invariant forall i, j :: 0 <= i < j < n ==> PairOk(environments[i], environments[j])
        invariant seen == SeenAfter(n)
      {
        var fine := CheckEnvironment(n, seen);
        if !fine {
          return false, seen;
        }
        seen := seen.Record(environments[n], n);
      }
      return true, seen;
    }

    // The dictionaries after n environments.
    function SeenAfter(n: nat): Seen
      requires n <= |environments|
    {
      if n == 0 then Seen(map[], map[], map[], map[]) else SeenAfter(n - 1).Record(environments[n - 1], n - 1)
    }

    lemma {:induction false} SeenIsLastSeen(n: nat)
      requires n <= |environments|
      ensures SeenAfter(n) ==
                Seen(LastSeen(DbNames(), n), LastSeen(Filestores(), n), LastSeen(Domains(), n), LastSeen(Branches(), n))
    {
      if n > 0 {
        SeenIsLastSeen(n - 1);
      }
    }

    function DbNames(): seq<string> {
      Column(environments, (e: Environment) => e.dbName)
    }

    function Filestores(): seq<string> {
      Column(environments, FilestoreIdentity)
    }

    function Domains(): seq<string> {
      Column(environments, (e: Environment) => e.domain)
    }

    function Branches(): seq<string> {
      Column(environments, (e: Environment) => e.branch)
    }

    // One environment against the dictionaries: as good as comparing it with every earlier one.
    method CheckEnvironment(n: nat, seen: Seen) returns (ok: bool)
      requires n < |environments| && forall i, j :: 0 <= i < j < n ==> PairOk(environments[i], environments[j])
      requires seen == SeenAfter(n)
      ensures ok <==> LocalOk(settings, environments, environments[n])
                      && forall i :: 0 <= i < n ==> PairOk(environments[i], environments[n])
    {
      var e := environments[n];
      var identity := FilestoreIdentity(e);
      SeenIsLastSeen(n);
      LastSeenIsLast(DbNames(), n, e.dbName);
      LastSeenIsLast(Filestores(), n, identity);
      LastSeenIsLast(Domains(), n, e.domain);
      LastSeenIsLast(Branches(), n, e.branch);
      if !LocalOk(settings, environments, e) {
        return false;
      }
      if e.dbName in seen.dbNames {
        assert !PairOk(environments[seen.dbNames[e.dbName]], e);
        return false;
      }
      if identity in seen.filestores {
        assert !PairOk(environments[seen.filestores[identity]], e);
        return false;
      }
      if e.domain in seen.domains && !SharedStack(environments[seen.domains[e.domain]], e) {
        assert !PairOk(environments[seen.domains[e.domain]], e);
        return false;
      }
      if e.branch in seen.branches {
        assert !PairOk(environments[seen.branches[e.branch]], e);
        return false;
      }
      forall i | 0 <= i < n ensures PairOk(environments[i], e) {
        assert DbNames()[i] == environments[i].dbName && Filestores()[i] == FilestoreIdentity(environments[i]);
        assert Branches()[i] == environments[i].branch && Domains()[i] == environments[i].domain;
        if environments[i].domain == e.domain {
          SharingPasses(n, i, seen.domains[e.domain]);
        }
      }
      return true;
    }

    // Sharing a domain passes from any earlier environment to the last one seen, and from that one to the new one.
    lemma SharingPasses(n: nat, i: nat, last: nat)
      requires i <= last < n < |environments|
      requires forall a, b :: 0 <= a < b < n ==> PairOk(environments[a], environments[b])
      requires environments[i].domain == environments[last].domain && SharedStack(environments[last], environments[n])
      ensures SharedStack(environments[i], environments[n])
    {
      assert i < last ==> PairOk(environments[i], environments[last]);
    }

    // The second loop: no temporary name may be another environment's live name.
    method CheckTemporaryNames(seenDbNames: map<string, nat>) returns (ok: bool)
      requires seenDbNames == LastSeen(DbNames(), |environments|)
      requires forall i, j :: 0 <= i < j < |environments| ==> PairOk(environments[i], environments[j])
      ensures ok <==> forall i, j :: 0 <= i < |environments| && 0 <= j < |environments| && i != j
                        ==> TempOk(settings, environments[i], environments[j])
    {
      OwnIndex(seenDbNames);
      for n := 0 to |environments|
        invariant forall i, j :: 0 <= i < n && 0 <= j < |environments| && i != j
                    ==> TempOk(settings, environments[i], environments[j])
      {
        var temp := environments[n].dbName + settings.tempSuffix;
        if temp in seenDbNames && seenDbNames[temp] != n {
          assert !TempOk(settings, environments[n], environments[seenDbNames[temp]]);
          return false;
        }
      }
      return true;
    }

    // Database names being distinct, each was last seen where it stands.
    lemma OwnIndex(seen: map<string, nat>)
      requires seen == LastSeen(DbNames(), |environments|)
      requires forall i, j :: 0 <= i < j < |environments| ==> PairOk(environments[i], environments[j])
      ensures forall j :: 0 <= j < |environments| ==>
                environments[j].dbName in seen && seen[environments[j].dbName] == j
      ensures forall k :: k in seen ==> seen[k] < |environments| && environments[seen[k]].dbName == k
    {
      forall j | 0 <= j < |environments| ensures environments[j].dbName in seen && seen[environments[j].dbName] == j {
        LastSeenIsLast(DbNames(), |environments|, environments[j].dbName);
        assert DbNames()[j] == environments[j].dbName;
        assert PairwiseDistinct(j, seen[environments[j].dbName]);
      }
      forall k | k in seen ensures seen[k] < |environments| && environments[seen[k]].dbName == k {
        LastSeenIsLast(DbNames(), |environments|, k);
      }
    }

    predicate PairwiseDistinct(j: nat, k: nat)
      requires j <= k < |environments|
    {
      j < k ==> PairOk(environments[j], environments[k])
    }
  }

  // ---------------------------------------------------------------- what acceptance means

  // The pair (volume, path); None stands for the default local volume.
  function Filestore(e: Environment): (Option<string>, string) {
    (if Given(e.filestoreVolume) then e.filestoreVolume else None, e.filestorePath)
  }

  // Volume names are identifiers, which contain no colon.
  predicate VolumeOk(e: Environment) {
    e.filestoreVolume.Some? ==> ':' !in e.filestoreVolume.value
  }

  lemma ColonSplits(a: string, b: string, p: string, q: string)
    requires ':' !in a && ':' !in b && a + [':'] + p == b + [':'] + q
    ensures a == b && p == q
  {
    var s := a + [':'] + p;
    FirstColon(a, p);
    FirstColon(b, q);
    assert s[..|a|] == a && s[|a| + 1..] == p;
    assert s[..|b|] == b && s[|b| + 1..] == q;
  }

  // The position of the first colon.
  function ColonAt(s: string): nat {
    if s == "" || s[0] == ':' then 0 else 1 + ColonAt(s[1..])
  }

  lemma {:induction false} FirstColon(a: string, p: string)
    requires ':' !in a
    ensures ColonAt(a + [':'] + p) == |a|
  {
    if a != "" {
      assert (a + [':'] + p)[1..] == a[1..] + [':'] + p;
      FirstColon(a[1..], p);
    }
  }

  // The identity string used as dictionary key is as good as the pair itself.
  lemma IdentityIsPair(e: Environment, f: Environment)
    requires VolumeOk(e) && VolumeOk(f)
    ensures FilestoreIdentity(e) == FilestoreIdentity(f) <==> Filestore(e) == Filestore(f)
  {
    var a, b := FilestoreIdentity(e), FilestoreIdentity(f);
    if a == b {
      assert a[0] == b[0];
      if Given(e.filestoreVolume) {
        assert a[7..] == e.filestoreVolume.value + [':'] + e.filestorePath;
        assert b[7..] == f.filestoreVolume.value + [':'] + f.filestorePath;
        ColonSplits(e.filestoreVolume.value, f.filestoreVolume.value, e.filestorePath, f.filestorePath);
      } else {
        assert a[5..] == e.filestorePath && b[5..] == f.filestorePath;
      }
    }
  }

  // In an accepted graph databases, branches and filestores are pairwise distinct, environments on one domain form one
  // stack with database selectors, and no temporary database name is any live or other temporary name.
  lemma AcceptedIsCollisionFree(s: Settings, envs: seq<Environment>, i: nat, j: nat)
    requires Acceptable(s, envs) && s.tempSuffix != "" && i < |envs| && j < |envs| && i != j
    requires forall k :: 0 <= k < |envs| ==> VolumeOk(envs[k])
    ensures envs[i].dbName != envs[j].dbName && envs[i].branch != envs[j].branch
    ensures Filestore(envs[i]) != Filestore(envs[j])
    ensures envs[i].domain == envs[j].domain ==>
              envs[i].stack == envs[j].stack && envs[i].dbSelector && envs[j].dbSelector
    ensures envs[i].dbName + s.tempSuffix != envs[j].dbName
    ensures envs[i].dbName + s.tempSuffix != envs[i].dbName
    ensures envs[i].dbName + s.tempSuffix != envs[j].dbName + s.tempSuffix
  {
    assert PairOk(envs[if i < j then i else j], envs[if i < j then j else i]);
    IdentityIsPair(envs[i], envs[j]);
    assert TempOk(s, envs[i], envs[j]);
    assert |envs[i].dbName + s.tempSuffix| > |envs[i].dbName|;
    SuffixInjective(envs[i].dbName, envs[j].dbName, s.tempSuffix);
  }

  lemma SuffixInjective(a: string, b: string, suffix: string)
    ensures a + suffix == b + suffix ==> a == b
  {
    assert (a + suffix)[..|a + suffix| - |suffix|] == a;
    assert (b + suffix)[..|b + suffix| - |suffix|] == b;
  }

  // In an accepted graph every reference names another environment, production is nobody's clone, each rollout is one
  // the runtime can do, and every feature that is on has its environment and its runtime.
  lemma AcceptedRefersTo(s: Settings, envs: seq<Environment>)
    requires Acceptable(s, envs)
    ensures forall e :: e in envs && e.cloneFrom.Some? && e.cloneFrom.value != "" ==>
              e.name != "production" && exists f :: f in envs && f.name == e.cloneFrom.value && f.name != e.name
    ensures forall e :: e in envs && e.promotesTo.Some? && e.promotesTo.value != "" ==>
              exists f :: f in envs && f.name == e.promotesTo.value && f.name != e.name
    ensures forall e :: e in envs ==>
              if s.runtime.DockerCompose? then e.rollout == "recreate"
              else e.rollout == "canary" ==> s.runtime.nginxCanary
    ensures s.pitr.Some? ==> exists f :: f in envs && f.name == s.pitr.value
    ensures s.snapshots.Some? ==> exists f :: f in envs && f.name == s.snapshots.value
    ensures s.snapshots.Some? && s.snapshotsBeforeDeploy ==> forall f :: f in envs && f.name == s.snapshots.value ==>
              if f.isProtected.Some? then f.isProtected.value else f.production || f.name == "production"
    ensures s.gitopsSource.Some? ==>
              !s.runtime.DockerCompose? && exists f :: f in envs && f.name == s.gitopsSource.value
    ensures s.simulated.Some? ==> !s.runtime.DockerCompose? && exists f :: f in envs && f.name == s.simulated.value
  {
    forall name | Defined(envs, name) ensures exists f :: f in envs && f.name == name {
      var i :| 0 <= i < |envs| && envs[i].name == name;
      assert envs[i] in envs;
    }
    forall e | e in envs ensures LocalOk(s, envs, e) {
      var i :| 0 <= i < |envs| && envs[i] == e;
    }
  }

  // Conversely, with no optional feature on and every rollout recreating, a graph whose references resolve and whose
  // environments differ where they must is accepted.
  lemma ResolvedIsAccepted(s: Settings, envs: seq<Environment>)
    requires s.pitr.None? && s.snapshots.None? && s.gitopsSource.None? && s.simulated.None?
    requires forall e :: e in envs ==>
               && e.rollout == "recreate"
               && (e.cloneFrom.Some? ==>
                     e.name != "production" && exists f :: f in envs && f.name == e.cloneFrom.value && f.name != e.name)
               && (e.promotesTo.Some? ==> exists f :: f in envs && f.name == e.promotesTo.value && f.name != e.name)
    requires forall i, j :: 0 <= i < j < |envs| ==> PairOk(envs[i], envs[j])
    requires forall i, j :: 0 <= i < |envs| && 0 <= j < |envs| && i != j ==> TempOk(s, envs[i], envs[j])
    ensures Acceptable(s, envs)
  {
    forall i | 0 <= i < |envs| ensures LocalOk(s, envs, envs[i]) {
      assert envs[i] in envs;
    }
  }
}
