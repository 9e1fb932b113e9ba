/**
 The backup index of the metadata store: one file per backup and one latest pointer per environment, all in one
 directory.
 */
module BackupIndex {
  import opened Option
  import Text

  datatype Manifest = Manifest(backupId: string, environment: string, timestamp: string, rest: string)

  type Files = map<string, string>

  // model_dump_json and model_validate_json; None stands for any validation error.
  datatype Codec = Codec(encode: Manifest -> string, decode: string -> Option<Manifest>)

  ghost predicate RoundTrips(c: Codec) {
    forall m :: c.decode(c.encode(m)) == Some(m)
  }

  // ---------------------------------------------------------------- names

  predicate SafeChar(c: char) {
    'a' <= c <= 'z' || 'A' <= c <= 'Z' || '0' <= c <= '9' || c in "._-"
  }

  predicate Safe(value: string) {
    value !in {"", ".", ".."} && forall i :: 0 <= i < |value| ==> SafeChar(value[i])
  }

  predicate EndsWith(s: string, suffix: string) {
    |suffix| <= |s| && s[|s| - |suffix|..] == suffix
  }

  function EntryFile(id: string): string {
    id + ".json"
  }

  function LatestFile(environment: string): string {
    environment + "-latest.json"
  }

  // What the listing takes for an entry.
  predicate EntryName(name: string) {
    EndsWith(name, ".json") && !EndsWith(name, "-latest.json")
  }

  lemma EntryFileInjective(a: string, b: string)
    ensures EntryFile(a) == EntryFile(b) <==> a == b
  {
    if EntryFile(a) == EntryFile(b) {
      assert a == EntryFile(a)[..|EntryFile(a)| - 5] && b == EntryFile(b)[..|EntryFile(b)| - 5];
    }
  }

  // An id is listed unless it ends as a latest pointer does.
  lemma ListedIff(id: string)
    ensures EntryName(EntryFile(id)) <==> !EndsWith(id, "-latest")
  {
    var name := EntryFile(id);
    assert name[|name| - 5..] == ".json";
    if EndsWith(id, "-latest") {
      assert name == id[..|id| - 7] + "-latest.json";
    }
    if EndsWith(name, "-latest.json") {
      assert name[|name| - 12..][..7] == id[|id| - 7..];
    }
  }

  lemma LatestNotListed(environment: string)
    ensures !EntryName(LatestFile(environment))
  {
    var name := LatestFile(environment);
    assert name[|name| - 12..] == "-latest.json";
  }

  // An entry and a latest pointer share a file exactly when the id spells the pointer.
  lemma EntryIsLatestIff(id: string, environment: string)
    ensures EntryFile(id) == LatestFile(environment) <==> id == environment + "-latest"
  {
    EntryFileInjective(id, environment + "-latest");
    assert EntryFile(environment + "-latest") == LatestFile(environment);
  }

  // ---------------------------------------------------------------- the index as a value

  predicate IsEntry(c: Codec, files: Files, name: string, environment: string) {
    name in files && EntryName(name) && c.decode(files[name]).Some?
        && c.decode(files[name]).value.environment == environment
  }

  // The readable entries of one environment, by file name.
  ghost function Entries(c: Codec, files: Files, environment: string): map<string, Manifest> {
    map name | name in files && IsEntry(c, files, name, environment) :: c.decode(files[name]).value
  }

  function LatestId(c: Codec, files: Files, environment: string): Option<string> {
    if LatestFile(environment) in files && c.decode(files[LatestFile(environment)]).Some?
    then Some(c.decode(files[LatestFile(environment)]).value.backupId)
    else None
  }

  function Names(desired: map<string, Manifest>): set<string> {
    set id | id in desired :: EntryFile(id)
  }

  // Every entry is filed under its own id.
  ghost predicate WellNamed(c: Codec, files: Files) {
    forall name :: name in files && EntryName(name) && c.decode(files[name]).Some? ==>
      name == EntryFile(c.decode(files[name]).value.backupId)
  }

  predicate Stale(c: Codec, files: Files, name: string, environment: string, desired: map<string, Manifest>) {
    IsEntry(c, files, name, environment) && c.decode(files[name]).value.backupId !in desired
  }

  ghost function Pruned(c: Codec, files: Files, environment: string, desired: map<string, Manifest>): Files {
    map name | name in files && !Stale(c, files, name, environment, desired) :: files[name]
  }

  ghost function Written(c: Codec, files: Files, desired: map<string, Manifest>): Files {
    map name | name in files.Keys + Names(desired) ::
      if name in Names(desired) then c.encode(desired[name[..|name| - 5]]) else files[name]
  }

  // The files once entries are pruned and written, the latest pointer aside.
  ghost function Synchronized(c: Codec, files: Files, environment: string, desired: map<string, Manifest>): Files {
    Written(c, Pruned(c, files, environment, desired), desired)
  }

  // The files after one entry is replaced, and the pointer with it if it names that entry.
  function Updated(c: Codec, files: Files, m: Manifest): Files {
    var written := files[EntryFile(m.backupId) := c.encode(m)];
    if LatestId(c, written, m.environment) == Some(m.backupId)
    then written[LatestFile(m.environment) := c.encode(m)]
    else written
  }

  // The file is there in both with the same text, or in neither.
  ghost predicate Same(before: Files, after: Files, name: string) {
    (name in before <==> name in after) && (name in before ==> after[name] == before[name])
  }

  // This file holds exactly this manifest.
  ghost predicate Stores(c: Codec, files: Files, name: string, m: Manifest) {
    name in files && c.decode(files[name]) == Some(m)
  }

  // Manifests of one environment under their ids.
  predicate Desired(environment: string, desired: map<string, Manifest>) {
    forall id :: id in desired ==> desired[id].backupId == id && desired[id].environment == environment
  }

  // ---------------------------------------------------------------- what synchronizing means

  lemma WrittenEntry(c: Codec, files: Files, desired: map<string, Manifest>, id: string)
    requires id in desired
    ensures EntryFile(id) in Written(c, files, desired)
              && Written(c, files, desired)[EntryFile(id)] == c.encode(desired[id])
  {
    var name := EntryFile(id);
    assert name in Names(desired) && name[..|name| - 5] == id;
  }

  // What synchronizing does to one file: a desired entry is stored under its id, a readable entry of the environment
  // that is not desired goes, and anything else stays, readable or not.
  lemma SynchronizedFile(c: Codec, files: Files, environment: string, desired: map<string, Manifest>, name: string)
    requires RoundTrips(c)
    ensures var after := Synchronized(c, files, environment, desired);
            if exists id :: id in desired && name == id + ".json"
            then forall id :: id in desired && name == id + ".json" ==> Stores(c, after, name, desired[id])
            else if EndsWith(name, ".json") && !EndsWith(name, "-latest.json") && name in files
                && c.decode(files[name]).Some? && c.decode(files[name]).value.environment == environment
                && c.decode(files[name]).value.backupId !in desired
            then name !in after
            else Same(files, after, name)
  {
    if id :| id in desired && name == EntryFile(id) {
      WrittenEntry(c, Pruned(c, files, environment, desired), desired, id);
      forall other | other in desired && name == EntryFile(other) ensures other == id {
        EntryFileInjective(other, id);
      }
    }
  }

  // No other entry of the environment stays, unless a misnamed one holds the id of a desired backup.
  ghost predicate Misnamed(c: Codec, files: Files, environment: string, desired: map<string, Manifest>, name: string) {
    IsEntry(c, files, name, environment) && name !in Names(desired) && c.decode(files[name]).value.backupId in desired
  }

  ghost function Filed(desired: map<string, Manifest>): map<string, Manifest> {
    map name | name in Names(desired) && name[..|name| - 5] in desired :: desired[name[..|name| - 5]]
  }

  lemma FiledEntry(desired: map<string, Manifest>, id: string)
    requires id in desired
    ensures EntryFile(id) in Filed(desired) && Filed(desired)[EntryFile(id)] == desired[id]
  {
    assert EntryFile(id)[..|EntryFile(id)| - 5] == id && EntryFile(id) in Names(desired);
  }

  // The readable entries of the environment are exactly the desired ones if and only if no other file of that
  // environment claims a desired id.
  lemma EntriesAreDesiredIff(c: Codec, files: Files, environment: string, desired: map<string, Manifest>)
    requires RoundTrips(c) && Desired(environment, desired)
    requires forall id :: id in desired ==> !EndsWith(id, "-latest")
    ensures Entries(c, Synchronized(c, files, environment, desired), environment) == Filed(desired)
            <==> forall name :: !Misnamed(c, files, environment, desired, name)
  {
    var after := Synchronized(c, files, environment, desired);
    forall name | name in Names(desired)
      ensures IsEntry(c, after, name, environment) && name in Filed(desired)
                && c.decode(after[name]) == Some(Filed(desired)[name])
    {
      var id :| id in desired && name == EntryFile(id);
      WrittenEntry(c, Pruned(c, files, environment, desired), desired, id);
      FiledEntry(desired, id);
      ListedIff(id);
    }
    forall name | name !in Names(desired)
      ensures IsEntry(c, after, name, environment) <==> Misnamed(c, files, environment, desired, name)
    {
      if name in after {
        assert name in files && after[name] == files[name];
      }
    }
    MapsEqualIff(Entries(c, after, environment), Filed(desired), Names(desired));
  }

  lemma MapsEqualIff(a: map<string, Manifest>, b: map<string, Manifest>, common: set<string>)
    requires b.Keys == common
    requires forall k :: k in common ==> k in a && a[k] == b[k]
    ensures a == b <==> forall k :: k in a ==> k in common
  {
  }

  // A well-named index has no such file.
  lemma WellNamedIsExact(c: Codec, files: Files, environment: string, desired: map<string, Manifest>)
    requires RoundTrips(c) && Desired(environment, desired) && WellNamed(c, files)
    requires forall id :: id in desired ==> !EndsWith(id, "-latest")
    ensures Entries(c, Synchronized(c, files, environment, desired), environment) == Filed(desired)
  {
    EntriesAreDesiredIff(c, files, environment, desired);
  }

  // Entries of another environment stay as they are if and only if none is filed under a desired id.
  lemma OtherEntriesUntouchedIff(c: Codec, files: Files, environment: string, desired: map<string, Manifest>,
                                 other: string)
    requires RoundTrips(c) && Desired(environment, desired) && other != environment
    ensures Entries(c, Synchronized(c, files, environment, desired), other) == Entries(c, files, other)
            <==> Entries(c, files, other).Keys !! Names(desired)
  {
    var before, now := Entries(c, files, other), Entries(c, Synchronized(c, files, environment, desired), other);
    forall name
      ensures if name in Names(desired) then name !in now
                else (name in before <==> name in now) && (name in before ==> before[name] == now[name])
    {
      OtherEntry(c, files, environment, desired, other, name);
    }
    EqualIffDisjoint(before, now, Names(desired));
  }

  lemma OtherEntry(c: Codec, files: Files, environment: string, desired: map<string, Manifest>, other: string,
                   name: string)
    requires RoundTrips(c) && Desired(environment, desired) && other != environment
    ensures var before, now := Entries(c, files, other),
              Entries(c, Synchronized(c, files, environment, desired), other);
            if name in Names(desired) then name !in now
            else (name in before <==> name in now) && (name in before ==> before[name] == now[name])
  {
    var after := Synchronized(c, files, environment, desired);
    if name in Names(desired) {
      var id :| id in desired && name == EntryFile(id);
      WrittenEntry(c, Pruned(c, files, environment, desired), desired, id);
    } else if name in after {
      assert name in files && after[name] == files[name];
    }
  }

  lemma EqualIffDisjoint(before: map<string, Manifest>, now: map<string, Manifest>, names: set<string>)
    requires forall name :: name in names ==> name !in now
    requires forall name :: name !in names ==>
               (name in before <==> name in now) && (name in before ==> before[name] == now[name])
    ensures now == before <==> before.Keys !! names
  {
    if before.Keys !! names {
      assert before.Keys == now.Keys;
    } else {
      var name :| name in before && name in names;
      assert name !in now;
    }
  }

  // The latest pointer is no entry.
  lemma PointerIsNoEntry(c: Codec, files: Files, environment: string, other: string, text: string)
    ensures Entries(c, files[LatestFile(other) := text], environment) == Entries(c, files, environment)
    ensures Entries(c, files - {LatestFile(other)}, environment) == Entries(c, files, environment)
  {
    LatestNotListed(other);
  }

  // ---------------------------------------------------------------- the newest backup

  // Keys compared as pairs.
  predicate Newer(a: Manifest, b: Manifest) {
    Text.Less(b.timestamp, a.timestamp) || (a.timestamp == b.timestamp && Text.Less(b.backupId, a.backupId))
  }

  lemma NewerTotal(a: Manifest, b: Manifest)
    ensures Newer(a, b) || Newer(b, a) || (a.timestamp == b.timestamp && a.backupId == b.backupId)
  {
    Text.LessTotal(a.timestamp, b.timestamp);
    Text.LessTotal(a.backupId, b.backupId);
  }

  lemma NewerTransitive(a: Manifest, b: Manifest, c: Manifest)
    requires Newer(a, b) && Newer(b, c)
    ensures Newer(a, c)
  {
    if Text.Less(b.timestamp, a.timestamp) && Text.Less(c.timestamp, b.timestamp) {
      Text.LessTransitive(c.timestamp, b.timestamp, a.timestamp);
    } else if a.timestamp == b.timestamp == c.timestamp && Text.Less(b.backupId, a.backupId)
        && Text.Less(c.backupId, b.backupId) {
      Text.LessTransitive(c.backupId, b.backupId, a.backupId);
    }
  }

  lemma NewerMeans(a: Manifest, b: Manifest)
    ensures Newer(a, b) ==>
            && !Text.Less(a.timestamp, b.timestamp)
            && (a.timestamp == b.timestamp ==> Text.Less(b.backupId, a.backupId))
  {
    if Text.Less(a.timestamp, b.timestamp) && Text.Less(b.timestamp, a.timestamp) {
      Text.LessTransitive(a.timestamp, b.timestamp, a.timestamp);
    }
    Text.LessIrreflexive(a.timestamp);
  }

  // No backup has a later timestamp than this one, and of those with the same timestamp it has the greatest id.
  ghost predicate Newest(desired: map<string, Manifest>, id: string) {
    id in desired && forall other :: other in desired ==>
      && !Text.Less(desired[id].timestamp, desired[other].timestamp)
      && (desired[other].timestamp == desired[id].timestamp ==> other == id || Text.Less(other, id))
  }

  lemma NewestIs(desired: map<string, Manifest>, id: string)
    requires id in desired && forall other :: other in desired ==> desired[other].backupId == other
    requires forall other :: other in desired && other != id ==> Newer(desired[id], desired[other])
    ensures Newest(desired, id)
  {
    forall other | other in desired && other != id
      ensures !Text.Less(desired[id].timestamp, desired[other].timestamp)
      ensures desired[other].timestamp == desired[id].timestamp ==> Text.Less(other, id)
    {
      NewerMeans(desired[id], desired[other]);
    }
    Text.LessIrreflexive(desired[id].timestamp);
  }

  // ---------------------------------------------------------------- the store

  // Nothing was refused before the first write.
  ghost predicate Acceptable(environment: string, manifests: seq<Manifest>) {
    && Safe(environment)
    && (forall i :: 0 <= i < |manifests| ==> manifests[i].environment == environment && Safe(manifests[i].backupId))
    && (forall i, j :: 0 <= i < j < |manifests| ==> manifests[i].backupId != manifests[j].backupId)
  }

  // The manifests by their ids.
  ghost predicate Collected(manifests: seq<Manifest>, desired: map<string, Manifest>) {
    && (forall i :: 0 <= i < |manifests| ==>
        manifests[i].backupId in desired && desired[manifests[i].backupId] == manifests[i])
    && (forall id :: id in desired ==> exists i :: 0 <= i < |manifests| && manifests[i].backupId == id)
  }

  // Whether the next manifest is accepted, and what is collected with it.
  lemma CollectNext(environment: string, manifests: seq<Manifest>, i: nat, desired: map<string, Manifest>)
    requires i < |manifests| && Acceptable(environment, manifests[..i]) && Collected(manifests[..i], desired)
    ensures Collected(manifests[..i + 1],
              desired[manifests[i].backupId := manifests[i]]) <== manifests[i].backupId !in desired
    ensures Acceptable(environment, manifests[..i + 1]) <==>
              manifests[i].environment == environment && Safe(manifests[i].backupId)
                  && manifests[i].backupId !in desired
    ensures Acceptable(environment, manifests) ==> Acceptable(environment, manifests[..i + 1])
  {
    var m, front, next := manifests[i], manifests[..i], manifests[..i + 1];
    assert next == front + [m];
    if m.backupId in desired {
      var j :| 0 <= j < |front| && front[j].backupId == m.backupId;
      assert next[j].backupId == next[i].backupId;
    }
    AcceptablePrefix(environment, manifests, i + 1);
  }

  lemma AcceptablePrefix(environment: string, manifests: seq<Manifest>, n: nat)
    requires n <= |manifests|
    ensures Acceptable(environment, manifests) ==> Acceptable(environment, manifests[..n])
  {
  }

  lemma CollectedIsDesired(environment: string, manifests: seq<Manifest>, desired: map<string, Manifest>)
    requires Acceptable(environment, manifests) && Collected(manifests, desired)
    ensures Desired(environment, desired)
    ensures (desired == map[]) <==> (manifests == [])
  {
    if manifests != [] {
      assert manifests[0].backupId in desired;
    }
    if desired != map[] {
      var id :| id in desired;
    }
  }

  // The latest pointer after synchronizing, given the id asked for.
  ghost predicate PointerSet(c: Codec, files: Files, after: Files, environment: string, desired: map<string, Manifest>,
                             asked: Option<string>)
  {
    if desired == map[] then after == files - {LatestFile(environment)}
    else exists id :: id in desired
           && (if asked.Some? then id == asked.value else Newest(desired, id))
           && after == files[LatestFile(environment) := c.encode(desired[id])]
  }

  // What updating one manifest means for the files.
  ghost predicate Refreshed(c: Codec, before: Files, after: Files, m: Manifest) {
    var entry, latest := m.backupId + ".json", m.environment + "-latest.json";
    && Stores(c, after, entry, m)
    && (if latest != entry && latest in before && c.decode(before[latest]).Some?
           && c.decode(before[latest]).value.backupId == m.backupId
        then Stores(c, after, latest, m)
        else latest != entry ==> Same(before, after, latest))
    && forall name :: name !in {entry, latest} ==> Same(before, after, name)
  }

  lemma UpdateRefreshes(c: Codec, before: Files, m: Manifest)
    requires RoundTrips(c)
    ensures Refreshed(c, before, Updated(c, before, m), m)
  {
    assert LatestFile(m.environment) == m.environment + "-latest.json";
  }

  class MetadataStore {
    var files: Files
    const codec: Codec

    constructor (codec: Codec)
      ensures files == map[] && this.codec == codec
    {
      this.codec, files := codec, map[];
    }

    method Save(backupId: string, manifest: Manifest) returns (ok: bool)
      modifies this
      ensures ok <==> Safe(backupId) && manifest.backupId == backupId && Safe(manifest.environment)
      ensures files == if ok
                       then old(files)[EntryFile(backupId) := codec.encode(manifest)]
                            [LatestFile(manifest.environment) := codec.encode(manifest)]
                       else old(files)
      ensures ok && RoundTrips(codec) ==>
                && Stores(codec, files, backupId + ".json", manifest)
                && Stores(codec, files, manifest.environment + "-latest.json", manifest)
    {
      if !Safe(backupId) || manifest.backupId != backupId || !Safe(manifest.environment) {
        return false;
      }
      files := files[EntryFile(backupId) := codec.encode(manifest)];
      files := files[LatestFile(manifest.environment) := codec.encode(manifest)];
      return true;
    }

    // The entry holds the manifest afterwards, and so does the pointer of its environment if it named that backup;
    // every other file stays as it was. So the pointer of an environment names the same backup before and after,
    // whatever is updated, as long as the updated id does not spell that pointer; then it names the updated backup.
    method Update(manifest: Manifest) returns (ok: bool)
      requires RoundTrips(codec)
      modifies this
      ensures ok <==> Safe(manifest.backupId) && Safe(manifest.environment)
      ensures !ok ==> files == old(files)
      ensures ok ==> files == Updated(codec, old(files), manifest)
      ensures ok ==> Refreshed(codec, old(files), files, manifest)
      ensures forall e :: e + "-latest" != manifest.backupId ==>
                LatestId(codec, files, e) == LatestId(codec, old(files), e)
      ensures ok ==> forall e :: e + "-latest" == manifest.backupId ==>
                LatestId(codec, files, e) == Some(manifest.backupId)
    {
      if !Safe(manifest.backupId) || !Safe(manifest.environment) {
        return false;
      }
      files := files[EntryFile(manifest.backupId) := codec.encode(manifest)];
      var latest := LatestFile(manifest.environment);
      if latest in files {
        var current := codec.decode(files[latest]);
        if current.Some? && current.value.backupId == manifest.backupId {
          files := files[latest := codec.encode(manifest)];
        }
      }
      UpdateKeepsPointers(codec, old(files), manifest);
      UpdateRefreshes(codec, old(files), manifest);
      return true;
    }

    method Collect(environment: string, manifests: seq<Manifest>) returns (ok: bool, desired: map<string, Manifest>)
      requires Safe(environment)
      ensures ok <==> Acceptable(environment, manifests)
      ensures ok ==> Collected(manifests, desired)
    {
      desired := map[];
      for i := 0 to |manifests|
        invariant Acceptable(environment, manifests[..i]) && Collected(manifests[..i], desired)
      {
        CollectNext(environment, manifests, i, desired);
        if manifests[i].environment != environment || !Safe(manifests[i].backupId) || manifests[i].backupId in desired {
          return false, desired;
        }
        desired := desired[manifests[i].backupId := manifests[i]];
      }
      assert manifests[..|manifests|] == manifests;
      ok := true;
    }

    method Prune(environment: string, desired: map<string, Manifest>)
      modifies this
      ensures files == Pruned(codec, old(files), environment, desired)
    {
      var left := files.Keys;
      while left != {}
        invariant left <= files.Keys <= old(files).Keys
        invariant forall name :: name in files ==> files[name] == old(files)[name]
        invariant forall name :: name in left ==> name in files
        invariant forall name :: name in old(files) && name !in left ==>
                    (name in files <==> !Stale(codec, old(files), name, environment, desired))
      {
        var name :| name in left;
        left := left - {name};
        if !EntryName(name) {
          continue;
        }
        var existing := codec.decode(files[name]);
        if existing.Some? && existing.value.environment == environment && existing.value.backupId !in desired {
          files := files - {name};
        }
      }
    }

    method WriteAll(desired: map<string, Manifest>)
      modifies this
      ensures files == Written(codec, old(files), desired)
    {
      var done: map<string, Manifest> := map[];
      var left := desired.Keys;
      while left != {}
        invariant left <= desired.Keys && left !! done.Keys
        invariant desired.Keys == left + done.Keys && forall id :: id in done ==> done[id] == desired[id]
        invariant files == Written(codec, old(files), done)
      {
        var id :| id in left;
        left := left - {id};
        WriteOneMore(codec, old(files), done, id, desired[id]);
        files := files[EntryFile(id) := codec.encode(desired[id])];
        done := done[id := desired[id]];
      }
      assert done == desired;
    }

    method FindNewest(desired: map<string, Manifest>) returns (id: string)
      requires desired != map[] && forall id :: id in desired ==> desired[id].backupId == id
      ensures Newest(desired, id)
    {
      id :| id in desired;
      var left := desired.Keys - {id};
      while left != {}
        invariant id in desired && id !in left && left <= desired.Keys
        invariant forall other :: other in desired && other !in left && other != id ==>
                    Newer(desired[id], desired[other])
      {
        var other :| other in left;
        left := left - {other};
        NewerTotal(desired[id], desired[other]);
        if Newer(desired[other], desired[id]) {
          forall o | o in desired && o !in left && o != other && o != id ensures Newer(desired[other], desired[o]) {
            NewerTransitive(desired[other], desired[id], desired[o]);
          }
          id := other;
        }
      }
      NewestIs(desired, id);
    }

    // Refused manifests change nothing. Otherwise the entries are synchronized, and the pointer is set unless it was
    // asked to name a backup that is not kept, which is reported only then.
    method Synchronize(environment: string, manifests: seq<Manifest>, asked: Option<string>)
      returns (ok: bool, ghost desired: map<string, Manifest>)
      modifies this
      ensures !Acceptable(environment, manifests) ==> !ok && files == old(files)
      ensures Acceptable(environment, manifests) ==> Collected(manifests, desired) && Desired(environment, desired)
      ensures Acceptable(environment, manifests) ==> (ok <==> manifests == [] || asked.None? || asked.value in desired)
      ensures Acceptable(environment, manifests) && !ok ==>
                files == Synchronized(codec, old(files), environment, desired)
      ensures ok ==>
                PointerSet(codec, Synchronized(codec, old(files), environment, desired), files, environment, desired,
                asked)
    {
      if !Safe(environment) {
        return false, map[];
      }
      var wanted;
      ok, wanted := Collect(environment, manifests);
      desired := wanted;
      if !ok {
        return;
      }
      CollectedIsDesired(environment, manifests, wanted);
      Prune(environment, wanted);
      WriteAll(wanted);
      ok := SetPointer(environment, wanted, asked);
    }

    method SetPointer(environment: string, desired: map<string, Manifest>, asked: Option<string>) returns (ok: bool)
      requires Desired(environment, desired)
      modifies this
      ensures ok <==> desired == map[] || asked.None? || asked.value in desired
      ensures !ok ==> files == old(files)
      ensures ok ==> PointerSet(codec, old(files), files, environment, desired, asked)
    {
      var latest := LatestFile(environment);
      if desired == map[] {
        files := files - {latest};
        return true;
      }
      var id;
      if asked.None? {
        id := FindNewest(desired);
      } else {
        id := asked.value;
      }
      if id !in desired {
        return false;
      }
      files := files[latest := codec.encode(desired[id])];
      return true;
    }
  }

  lemma NamesOneMore(done: map<string, Manifest>, id: string, m: Manifest)
    requires id !in done
    ensures Names(done[id := m]) == Names(done) + {EntryFile(id)}
    ensures EntryFile(id) !in Names(done) && EntryFile(id)[..|EntryFile(id)| - 5] == id
    ensures forall name :: name in Names(done) ==> name[..|name| - 5] in done && name != EntryFile(id)
  {
    assert forall other :: EntryFile(other)[..|EntryFile(other)| - 5] == other;
    assert done[id := m].Keys == done.Keys + {id};
  }

  lemma WriteOneMore(c: Codec, files: Files, done: map<string, Manifest>, id: string, m: Manifest)
    requires id !in done
    ensures Written(c, files, done[id := m]) == Written(c, files, done)[EntryFile(id) := c.encode(m)]
  {
    NamesOneMore(done, id, m);
    var all, most := Written(c, files, done[id := m]), Written(c, files, done)[EntryFile(id) := c.encode(m)];
    assert all.Keys == most.Keys;
    forall name | name in all ensures all[name] == most[name] {
      if name in Names(done) {
        assert name[..|name| - 5] != id;
      }
    }
  }

  lemma UpdateKeepsPointers(c: Codec, before: Files, m: Manifest)
    requires RoundTrips(c)
    ensures forall e :: e + "-latest" != m.backupId ==> LatestId(c, Updated(c, before, m), e) == LatestId(c, before, e)
    ensures forall e :: e + "-latest" == m.backupId ==> LatestId(c, Updated(c, before, m), e) == Some(m.backupId)
  {
    var after := Updated(c, before, m);
    forall e
      ensures LatestId(c, after, e) == if e + "-latest" == m.backupId then Some(m.backupId) else LatestId(c, before, e)
    {
      EntryIsLatestIff(m.backupId, e);
      if LatestFile(e) == LatestFile(m.environment) {
        assert e == LatestFile(e)[..|e|] == m.environment;
      }
    }
  }

  // ---------------------------------------------------------------- over whole runs

  // Whose environment a backup id belongs to.
  type Owner = string -> string

  predicate Owned(owner: Owner, m: Manifest) {
    owner(m.backupId) == m.environment && !EndsWith(m.backupId, "-latest")
  }

  // Every readable entry is filed under its id, in the environment that id belongs to.
  ghost predicate Tidy(c: Codec, owner: Owner, files: Files) {
    forall name :: name in files && EntryName(name) && c.decode(files[name]).Some? ==>
      && name == EntryFile(c.decode(files[name]).value.backupId)
      && Owned(owner, c.decode(files[name]).value)
  }

  // The pointer is a copy of an entry of its environment.
  ghost predicate Mirrors(c: Codec, owner: Owner, files: Files, environment: string) {
    LatestFile(environment) in files ==>
      && c.decode(files[LatestFile(environment)]).Some?
      && var m := c.decode(files[LatestFile(environment)]).value;
         m.environment == environment && Owned(owner, m)
         && EntryFile(m.backupId) in files && files[EntryFile(m.backupId)] == files[LatestFile(environment)]
  }

  ghost predicate Consistent(c: Codec, owner: Owner, files: Files) {
    Tidy(c, owner, files) && forall e :: Mirrors(c, owner, files, e)
  }

  lemma LatestFileInjective(a: string, b: string)
    ensures LatestFile(a) == LatestFile(b) <==> a == b
  {
    if LatestFile(a) == LatestFile(b) {
      assert a == LatestFile(a)[..|LatestFile(a)| - 12] && b == LatestFile(b)[..|LatestFile(b)| - 12];
    }
  }

  // An entry of an owned id is no pointer, and a pointer no entry.
  lemma Apart(owner: Owner, m: Manifest, environment: string)
    requires Owned(owner, m)
    ensures EntryFile(m.backupId) != LatestFile(environment) && EntryName(EntryFile(m.backupId))
    ensures !EntryName(LatestFile(environment))
  {
    LatestNotListed(environment);
    ListedIff(m.backupId);
  }

  lemma TidyPointer(c: Codec, owner: Owner, files: Files, environment: string, text: string)
    requires Tidy(c, owner, files)
    ensures Tidy(c, owner, files[LatestFile(environment) := text]) && Tidy(c, owner, files - {LatestFile(environment)})
  {
    LatestNotListed(environment);
  }

  lemma TidyEntry(c: Codec, owner: Owner, files: Files, m: Manifest)
    requires RoundTrips(c) && Tidy(c, owner, files) && Owned(owner, m)
    ensures Tidy(c, owner, files[EntryFile(m.backupId) := c.encode(m)])
  {
  }

  // The pointer that names m's id, if any, is the one of m's environment.
  lemma EntryKeepsMirror(c: Codec, owner: Owner, files: Files, m: Manifest, e: string)
    requires RoundTrips(c) && Owned(owner, m) && Mirrors(c, owner, files, e)
    requires LatestId(c, files, e) != Some(m.backupId)
    ensures Mirrors(c, owner, files[EntryFile(m.backupId) := c.encode(m)], e)
    ensures LatestId(c, files[EntryFile(m.backupId) := c.encode(m)], e) == LatestId(c, files, e)
  {
    Apart(owner, m, e);
    if LatestFile(e) in files {
      EntryFileInjective(m.backupId, c.decode(files[LatestFile(e)]).value.backupId);
    }
  }

  lemma OnlyOwnPointer(c: Codec, owner: Owner, files: Files, m: Manifest, e: string)
    requires Owned(owner, m) && Mirrors(c, owner, files, e) && e != m.environment
    ensures LatestId(c, files, e) != Some(m.backupId)
  {
  }

  // Writing an entry and its copy as the pointer.
  lemma EntryAndPointer(c: Codec, owner: Owner, files: Files, m: Manifest)
    requires RoundTrips(c) && Owned(owner, m) && Consistent(c, owner, files)
    ensures Consistent(c, owner, files[EntryFile(m.backupId) := c.encode(m)][LatestFile(m.environment) := c.encode(m)])
  {
    var entered := files[EntryFile(m.backupId) := c.encode(m)];
    var after := entered[LatestFile(m.environment) := c.encode(m)];
    TidyEntry(c, owner, files, m);
    TidyPointer(c, owner, entered, m.environment, c.encode(m));
    Apart(owner, m, m.environment);
    forall e ensures Mirrors(c, owner, after, e) {
      LatestFileInjective(e, m.environment);
      if e != m.environment {
        OnlyOwnPointer(c, owner, files, m, e);
        EntryKeepsMirror(c, owner, files, m, e);
        OtherPointerKeepsMirror(c, owner, entered, m.environment, c.encode(m), e);
      }
    }
  }

  lemma OtherPointerKeepsMirror(c: Codec, owner: Owner, files: Files, environment: string, text: string, e: string)
    requires Mirrors(c, owner, files, e) && e != environment
    ensures Mirrors(c, owner, files[LatestFile(environment) := text], e)
    ensures Mirrors(c, owner, files - {LatestFile(environment)}, e)
  {
    LatestFileInjective(e, environment);
    if LatestFile(e) in files {
      Apart(owner, c.decode(files[LatestFile(e)]).value, environment);
    }
  }

  // An entry the pointer does not name.
  lemma EntryAlone(c: Codec, owner: Owner, files: Files, m: Manifest)
    requires RoundTrips(c) && Owned(owner, m) && Consistent(c, owner, files)
    requires LatestId(c, files, m.environment) != Some(m.backupId)
    ensures Consistent(c, owner, files[EntryFile(m.backupId) := c.encode(m)])
  {
    var after := files[EntryFile(m.backupId) := c.encode(m)];
    TidyEntry(c, owner, files, m);
    forall e ensures Mirrors(c, owner, after, e) {
      if e != m.environment {
        OnlyOwnPointer(c, owner, files, m, e);
      }
      EntryKeepsMirror(c, owner, files, m, e);
    }
  }

  ghost predicate AllOwned(owner: Owner, desired: map<string, Manifest>) {
    forall id :: id in desired ==> Owned(owner, desired[id])
  }

  lemma SynchronizedTidy(c: Codec, owner: Owner, files: Files, environment: string, desired: map<string, Manifest>)
    requires RoundTrips(c) && Tidy(c, owner, files) && Desired(environment, desired) && AllOwned(owner, desired)
    ensures Tidy(c, owner, Synchronized(c, files, environment, desired))
  {
    var after := Synchronized(c, files, environment, desired);
    forall name | name in after && EntryName(name) && c.decode(after[name]).Some?
      ensures name == EntryFile(c.decode(after[name]).value.backupId) && Owned(owner, c.decode(after[name]).value)
    {
      if name in Names(desired) {
        var id :| id in desired && name == EntryFile(id);
        WrittenEntry(c, Pruned(c, files, environment, desired), desired, id);
      } else {
        assert after[name] == files[name];
      }
    }
  }

  // Synchronizing one environment leaves the pointers of the others with their entries.
  lemma SynchronizedMirror(c: Codec, owner: Owner, files: Files, environment: string, desired: map<string, Manifest>,
                           e: string)
    requires RoundTrips(c) && Desired(environment, desired) && AllOwned(owner, desired)
    requires Mirrors(c, owner, files, e) && e != environment
    ensures Mirrors(c, owner, Synchronized(c, files, environment, desired), e)
  {
    var after := Synchronized(c, files, environment, desired);
    forall id | id in desired ensures EntryFile(id) != LatestFile(e) {
      Apart(owner, desired[id], e);
    }
    LatestNotListed(e);
    if LatestFile(e) in files {
      var m := c.decode(files[LatestFile(e)]).value;
      forall id | id in desired ensures EntryFile(id) != EntryFile(m.backupId) {
        EntryFileInjective(id, m.backupId);
      }
      assert after[EntryFile(m.backupId)] == files[EntryFile(m.backupId)];
    }
  }

  lemma SynchronizeConsistent(c: Codec, owner: Owner, files: Files, after: Files, environment: string,
                              desired: map<string, Manifest>, asked: Option<string>)
    requires RoundTrips(c) && Consistent(c, owner, files) && Desired(environment, desired) && AllOwned(owner, desired)
    requires PointerSet(c, Synchronized(c, files, environment, desired), after, environment, desired, asked)
    ensures Consistent(c, owner, after)
  {
    var entered := Synchronized(c, files, environment, desired);
    SynchronizedTidy(c, owner, files, environment, desired);
    if desired == map[] {
      TidyPointer(c, owner, entered, environment, "");
    } else {
      var id :| id in desired && after == entered[LatestFile(environment) := c.encode(desired[id])];
      TidyPointer(c, owner, entered, environment, c.encode(desired[id]));
      WrittenEntry(c, Pruned(c, files, environment, desired), desired, id);
      Apart(owner, desired[id], environment);
      assert Mirrors(c, owner, after, environment);
    }
    forall e ensures Mirrors(c, owner, after, e) {
      if e != environment {
        SynchronizedMirror(c, owner, files, environment, desired, e);
        OtherPointerKeepsMirror(c, owner, entered, environment,
            if LatestFile(environment) in after then after[LatestFile(environment)] else "", e);
      }
    }
  }

  // A consistent index is well named, so synchronizing, whether or not it is refused at its end, makes the
  // environment's entries exactly the desired ones and leaves every other environment's entries as they are.
  lemma ConsistentIsExact(c: Codec, owner: Owner, files: Files, after: Files, environment: string,
                          desired: map<string, Manifest>, asked: Option<string>, other: string)
    requires RoundTrips(c) && Consistent(c, owner, files) && Desired(environment, desired) && AllOwned(owner, desired)
    requires var written := Synchronized(c, files, environment, desired);
             after == written || PointerSet(c, written, after, environment, desired, asked)
    ensures Entries(c, after, environment) == Filed(desired)
    ensures other != environment ==> Entries(c, after, other) == Entries(c, files, other)
  {
    var written := Synchronized(c, files, environment, desired);
    var text := if LatestFile(environment) in after then after[LatestFile(environment)] else "";
    PointerIsNoEntry(c, written, environment, environment, text);
    PointerIsNoEntry(c, written, other, environment, text);
    WellNamedIsExact(c, files, environment, desired);
    if other != environment {
      forall name | name in Entries(c, files, other) ensures name !in Names(desired) {
        var m := c.decode(files[name]).value;
        forall id | id in desired ensures EntryFile(id) != EntryFile(m.backupId) {
          EntryFileInjective(id, m.backupId);
        }
      }
      OtherEntriesUntouchedIff(c, files, environment, desired, other);
    }
  }

  // A synchronization refused at the end has pruned and written entries by then. The pointer it leaves is still the
  // copy of an entry exactly when the backup it names is kept unchanged.
  lemma RefusedPointerIff(c: Codec, owner: Owner, files: Files, environment: string, desired: map<string, Manifest>)
    requires RoundTrips(c) && Consistent(c, owner, files) && Desired(environment, desired) && AllOwned(owner, desired)
    requires LatestFile(environment) in files
    ensures LatestId(c, files, environment).Some?
    ensures Mirrors(c, owner, Synchronized(c, files, environment, desired), environment)
            <==> var id := LatestId(c, files, environment).value;
                 id in desired && c.encode(desired[id]) == files[LatestFile(environment)]
  {
    var after := Synchronized(c, files, environment, desired);
    assert Mirrors(c, owner, files, environment);
    var m := c.decode(files[LatestFile(environment)]).value;
    Apart(owner, m, environment);
    forall id | id in desired
      ensures EntryFile(id) != LatestFile(environment) && (EntryFile(id) == EntryFile(m.backupId) <==> id == m.backupId)
    {
      Apart(owner, desired[id], environment);
      EntryFileInjective(id, m.backupId);
    }
    assert after[LatestFile(environment)] == files[LatestFile(environment)];
    if m.backupId in desired {
      WrittenEntry(c, Pruned(c, files, environment, desired), desired, m.backupId);
    } else {
      assert Stale(c, files, EntryFile(m.backupId), environment, desired);
    }
  }

  // A synchronization that was asked to keep, as latest, a backup it does not keep.
  predicate Dangles(manifests: seq<Manifest>, asked: Option<string>) {
    manifests != [] && asked.Some? && forall i :: 0 <= i < |manifests| ==> manifests[i].backupId != asked.value
  }

  // The latest backup is among these, unchanged.
  predicate KeepsPointer(c: Codec, files: Files, environment: string, manifests: seq<Manifest>) {
    LatestFile(environment) in files ==>
      exists i :: 0 <= i < |manifests| && LatestId(c, files, environment) == Some(manifests[i].backupId)
                  && c.encode(manifests[i]) == files[LatestFile(environment)]
  }

  // So a refused synchronization keeps a consistent index consistent exactly if there was no pointer or its backup is
  // kept unchanged.
  lemma RefusedConsistentIff(c: Codec, owner: Owner, files: Files, environment: string, manifests: seq<Manifest>,
                             desired: map<string, Manifest>)
    requires RoundTrips(c) && Consistent(c, owner, files) && Desired(environment, desired) && AllOwned(owner, desired)
    requires Collected(manifests, desired)
    ensures Consistent(c, owner, Synchronized(c, files, environment, desired)) <==>
              KeepsPointer(c, files, environment, manifests)
  {
    var after := Synchronized(c, files, environment, desired);
    SynchronizedTidy(c, owner, files, environment, desired);
    forall e | e != environment ensures Mirrors(c, owner, after, e) {
      SynchronizedMirror(c, owner, files, environment, desired, e);
    }
    if LatestFile(environment) in files {
      RefusedPointerIff(c, owner, files, environment, desired);
    } else {
      NoPointerStays(c, owner, files, environment, desired);
    }
  }

  lemma NoPointerStays(c: Codec, owner: Owner, files: Files, environment: string, desired: map<string, Manifest>)
    requires Desired(environment, desired) && AllOwned(owner, desired) && LatestFile(environment) !in files
    ensures LatestFile(environment) !in Synchronized(c, files, environment, desired)
  {
    forall id | id in desired ensures EntryFile(id) != LatestFile(environment) {
      Apart(owner, desired[id], environment);
    }
  }

  predicate AllManifestsOwned(owner: Owner, manifests: seq<Manifest>) {
    forall i :: 0 <= i < |manifests| ==> Owned(owner, manifests[i])
  }

  lemma UpdateConsistent(c: Codec, owner: Owner, files: Files, m: Manifest)
    requires RoundTrips(c) && Owned(owner, m) && Consistent(c, owner, files)
    ensures Consistent(c, owner, Updated(c, files, m))
  {
    Apart(owner, m, m.environment);
    if LatestId(c, files, m.environment) == Some(m.backupId) {
      EntryAndPointer(c, owner, files, m);
    } else {
      EntryAlone(c, owner, files, m);
    }
  }

  // Any sequence of operations on ids that each belong to one environment keeps every entry filed under its id and
  // every pointer a copy of an entry of its environment. A synchronization asked to name a backup it does not keep
  // takes part if it keeps the one named latest before.
  method AnyRun(store: MetadataStore, owner: Owner, operations: nat)
    requires RoundTrips(store.codec) && Consistent(store.codec, owner, store.files)
    modifies store
    ensures Consistent(store.codec, owner, store.files)
  {
    for n := 0 to operations
      invariant Consistent(store.codec, owner, store.files)
    {
      var m: Manifest := *;
      var manifests: seq<Manifest> := *;
      var environment: string := *;
      var asked: Option<string> := *;
      var which: int := *;
      if which == 0 {
        SaveOwned(store, owner, m);
      } else if which == 1 {
        UpdateOwned(store, owner, m);
      } else if AllManifestsOwned(owner, manifests)
                && (!Dangles(manifests, asked) || KeepsPointer(store.codec, store.files, environment, manifests)) {
        SynchronizeOwned(store, owner, environment, manifests, asked);
      }
    }
  }

  method SaveOwned(store: MetadataStore, owner: Owner, m: Manifest)
    requires RoundTrips(store.codec) && Consistent(store.codec, owner, store.files)
    modifies store
    ensures Consistent(store.codec, owner, store.files)
  {
    if Owned(owner, m) {
      EntryAndPointer(store.codec, owner, store.files, m);
      var _ := store.Save(m.backupId, m);
    }
  }

  method UpdateOwned(store: MetadataStore, owner: Owner, m: Manifest)
    requires RoundTrips(store.codec) && Consistent(store.codec, owner, store.files)
    modifies store
    ensures Consistent(store.codec, owner, store.files)
  {
    if Owned(owner, m) {
      UpdateConsistent(store.codec, owner, store.files, m);
      var _ := store.Update(m);
    }
  }

  // The index stays consistent, except exactly when an accepted synchronization is refused at its end and drops or
  // changes the backup named latest before.
  method SynchronizeOwned(store: MetadataStore, owner: Owner, environment: string, manifests: seq<Manifest>,
                          asked: Option<string>)
    requires RoundTrips(store.codec) && Consistent(store.codec, owner, store.files)
               && AllManifestsOwned(owner, manifests)
    modifies store
    ensures Consistent(store.codec, owner, store.files) <==>
              || !Acceptable(environment, manifests) || !Dangles(manifests, asked)
              || KeepsPointer(store.codec, old(store.files), environment, manifests)
  {
    ghost var before := store.files;
    var ok, desired := store.Synchronize(environment, manifests, asked);
    if Acceptable(environment, manifests) {
      CollectedOwned(owner, manifests, desired, asked);
      if ok {
        SynchronizeConsistent(store.codec, owner, before, store.files, environment, desired, asked);
      } else {
        RefusedConsistentIff(store.codec, owner, before, environment, manifests, desired);
      }
    }
  }

  lemma CollectedOwned(owner: Owner, manifests: seq<Manifest>, desired: map<string, Manifest>, asked: Option<string>)
    requires Collected(manifests, desired) && AllManifestsOwned(owner, manifests)
    ensures AllOwned(owner, desired)
    ensures !Dangles(manifests, asked) <==> manifests == [] || asked.None? || asked.value in desired
    ensures manifests == [] ==> desired == map[]
  {
  }

  // ---------------------------------------------------------------- indexes that are not consistent

  // A file of another name that claims a desired id stays beside the desired entry.
  lemma MisnamedEntryStays(c: Codec)
    requires RoundTrips(c)
    ensures var m := Manifest("b1", "prod", "2024", "");
            var files, desired := map["copy.json" := c.encode(m)], map["b1" := m];
            Entries(c, Synchronized(c, files, "prod", desired), "prod") != Filed(desired)
  {
    var m := Manifest("b1", "prod", "2024", "");
    var files, desired := map["copy.json" := c.encode(m)], map["b1" := m];
    assert "copy.json"[4..] == ".json" && |"copy.json"| < |"-latest.json"|;
    assert "copy.json" !in Names(desired) by {
      assert |EntryFile("b1")| == 7;
    }
    assert Misnamed(c, files, "prod", desired, "copy.json");
    assert !EndsWith("b1", "-latest");
    EntriesAreDesiredIff(c, files, "prod", desired);
  }

  // Another environment's entry that is filed under a desired id is overwritten.
  lemma ForeignEntryIsOverwritten(c: Codec)
    requires RoundTrips(c)
    ensures var mine, theirs := Manifest("b1", "prod", "2024", ""), Manifest("b1", "stage", "2024", "");
            var files, desired := map["b1.json" := c.encode(theirs)], map["b1" := mine];
            Entries(c, Synchronized(c, files, "prod", desired), "stage") != Entries(c, files, "stage")
  {
    var mine, theirs := Manifest("b1", "prod", "2024", ""), Manifest("b1", "stage", "2024", "");
    var files, desired := map["b1.json" := c.encode(theirs)], map["b1" := mine];
    assert EntryFile("b1") == "b1.json" && "b1.json" in Names(desired);
    assert "b1.json"[2..] == ".json";
    assert IsEntry(c, files, "b1.json", "stage");
    assert "b1.json" in Entries(c, files, "stage").Keys;
    OtherEntriesUntouchedIff(c, files, "prod", desired, "stage");
  }
}
