/**
 Restoring an EBS snapshot set, with CreateVolume idempotent per client token.

 The account is shared: before each call other processes may create volumes of their own, also for the same
 snapshot set, and volumes may change state or be attached.  Each call may fail with or without taking effect, which
 is also what a restore cut off at that call leaves behind.
 */
module EbsRestore {
  import opened Option

  type VolumeId = nat

  // Both digests are truncated SHA-256 values, taken to be injective.
  datatype Text = Plain(text: string) | ClientToken(digested: string) | RestoreMarker(digested: string)

  type Tags = map<string, Text>

  const RESTORE_TAG: string := "odooctl:restore"

  datatype Resource = Resource(
    snapshotId: string, sourceId: string, state: string, sizeGib: Option<int>, volumeType: Option<string>,
    iops: Option<int>, throughput: Option<int>, encrypted: Option<bool>, kmsKeyId: Option<string>,
    location: Option<string>, deviceName: Option<string>, rootDevice: bool)

  datatype Manifest = Manifest(
    snapshotId: string, provider: string, status: string, project: string, environment: string,
        resources: seq<Resource>,
    region: Option<string>, account: Option<string>)

  // A snapshot as the provider describes it now.
  datatype RemoteSnapshot = RemoteSnapshot(snapshotId: string, volumeId: string, state: string)

  datatype Volume = Volume(
    id: VolumeId, snapshotId: string, zone: string, tags: Tags, state: string, attached: bool,
    size: int, volumeType: string, iops: int, throughput: int, encrypted: bool, kmsKeyId: string)

  datatype Request = Request(
    snapshotId: string, zone: string, token: Text, tags: Tags, volumeType: Option<string>, iops: Option<int>,
    throughput: Option<int>)

  datatype Grant = Grant(request: Request, volume: VolumeId)

  type Grants = map<Text, Grant>

  // ---------------------------------------------------------------- what is asked for

  function Token(zone: string, m: Manifest, r: Resource): Text {
    ClientToken(m.snapshotId + ":" + r.snapshotId + ":" + zone)
  }

  function RecoveryTags(zone: string, m: Manifest, r: Resource): Tags {
    map["odooctl:restored-from" := Plain(m.snapshotId),
        "odooctl:restore-set" := RestoreMarker(m.snapshotId),
        RESTORE_TAG := Token(zone, m, r),
        "odooctl:project" := Plain(m.project),
        "odooctl:environment" := Plain(m.environment)]
  }

  function Filled(s: Option<string>): Option<string> {
    if s == Some("") then None else s
  }

  function RestoreRequest(zone: string, m: Manifest, r: Resource): Request {
    Request(r.snapshotId, zone, Token(zone, m, r), RecoveryTags(zone, m, r), Filled(r.volumeType),
            if r.volumeType in {Some("gp3"), Some("io1"), Some("io2")} then r.iops else None,
            if r.volumeType == Some("gp3") then r.throughput else None)
  }

  predicate Plannable(region: string, m: Manifest) {
    && m.provider == "aws_ebs"
    && m.status == "complete"
    && m.resources != []
    && (forall r :: r in m.resources ==> r.state == "completed" && r.snapshotId != "")
    && InScope(m.region, region)
  }

  // A scope that is recorded must be the present one.
  predicate InScope(recorded: Option<string>, actual: string) {
    Filled(recorded).Some? ==> Filled(recorded).value == actual
  }

  // Every snapshot of the set is still there, of the volume it was taken from, and complete.
  predicate RemoteComplete(snapshots: map<string, RemoteSnapshot>, m: Manifest) {
    forall r :: r in m.resources ==>
      r.snapshotId in snapshots && snapshots[r.snapshotId] == RemoteSnapshot(r.snapshotId, r.sourceId, "completed")
  }

  function Pairs(m: Manifest): set<(string, string)> {
    set r | r in m.resources :: (r.snapshotId, r.sourceId)
  }

  function DescribedPairs(described: seq<RemoteSnapshot>): set<(string, string)> {
    set d | d in described :: (d.snapshotId, d.volumeId)
  }

  // What the provider returned for the set's ids is all of it, and current.
  ghost predicate Describes(snapshots: map<string, RemoteSnapshot>, m: Manifest, described: seq<RemoteSnapshot>) {
    && (forall d :: d in described ==> d.snapshotId in snapshots && snapshots[d.snapshotId] == d)
    && (forall d :: d in described ==> exists r :: r in m.resources && r.snapshotId == d.snapshotId)
    && (forall r :: r in m.resources ==> r.snapshotId in snapshots && snapshots[r.snapshotId] in described)
  }

  // Comparing the two sets of pairs, and every state, decides whether the set is complete.
  lemma PairsDecide(snapshots: map<string, RemoteSnapshot>, m: Manifest, described: seq<RemoteSnapshot>)
    requires Describes(snapshots, m, described)
    ensures DescribedPairs(described) == Pairs(m) && (forall d :: d in described ==> d.state == "completed")
            <==> RemoteComplete(snapshots, m)
  {
    if RemoteComplete(snapshots, m) {
      forall d | d in described ensures d.state == "completed" && (d.snapshotId, d.volumeId) in Pairs(m) {
        var r :| r in m.resources && r.snapshotId == d.snapshotId;
        assert (r.snapshotId, r.sourceId) in Pairs(m);
      }
      forall r | r in m.resources ensures (r.snapshotId, r.sourceId) in DescribedPairs(described) {
        assert snapshots[r.snapshotId] in described;
      }
    } else if DescribedPairs(described) == Pairs(m) && forall d :: d in described ==> d.state == "completed" {
      forall r | r in m.resources
        ensures snapshots[r.snapshotId] == RemoteSnapshot(r.snapshotId, r.sourceId, "completed")
      {
        assert (r.snapshotId, r.sourceId) in DescribedPairs(described);
        var d :| d in described && (d.snapshotId, d.volumeId) == (r.snapshotId, r.sourceId);
        assert snapshots[r.snapshotId] == d;
      }
    }
  }

  // One manifest and zone give different snapshots different tokens, whatever characters the ids hold.
  lemma TokenNamesSnapshot(zone: string, m: Manifest, r: Resource, q: Resource)
    ensures Token(zone, m, r) == Token(zone, m, q) <==> r.snapshotId == q.snapshotId
  {
    var head, tail := m.snapshotId + ":", ":" + zone;
    var a, b := m.snapshotId + ":" + r.snapshotId + ":" + zone, m.snapshotId + ":" + q.snapshotId + ":" + zone;
    assert a == head + r.snapshotId + tail && b == head + q.snapshotId + tail;
    if a == b {
      assert |r.snapshotId| == |q.snapshotId|;
      assert r.snapshotId == a[|head|..|head| + |r.snapshotId|];
      assert q.snapshotId == b[|head|..|head| + |q.snapshotId|];
    }
  }

  // ... and the tokens of two zones differ.
  lemma TokenNamesZone(zone: string, other: string, m: Manifest, r: Resource)
    ensures Token(zone, m, r) == Token(other, m, r) <==> zone == other
  {
    var head := m.snapshotId + ":" + r.snapshotId + ":";
    assert (head + zone)[|head|..] == zone && (head + other)[|head|..] == other;
  }

  predicate Agrees<T(==)>(expected: Option<T>, actual: T) {
    expected.Some? ==> expected.value == actual
  }

  // _validate_restored_volume raises nothing.
  predicate Validated(zone: string, v: Volume, m: Manifest, r: Resource) {
    && v.snapshotId == r.snapshotId
    && v.zone == zone
    && !v.attached
    && Agrees(r.sizeGib, v.size) && Agrees(r.volumeType, v.volumeType) && Agrees(r.iops, v.iops)
    && Agrees(r.throughput, v.throughput) && Agrees(r.encrypted, v.encrypted) && Agrees(r.kmsKeyId, v.kmsKeyId)
    && TagsMatch(v.tags, RecoveryTags(zone, m, r))
  }

  predicate Holds(tags: Tags, key: string, value: Text) {
    key in tags && tags[key] == value
  }

  // The tags of a volume restored for one resource.
  predicate TaggedFor(tags: Tags, zone: string, m: Manifest, r: Resource) {
    && Holds(tags, "odooctl:restored-from", Plain(m.snapshotId))
    && Holds(tags, "odooctl:restore-set", RestoreMarker(m.snapshotId))
    && Holds(tags, "odooctl:restore", ClientToken(m.snapshotId + ":" + r.snapshotId + ":" + zone))
    && Holds(tags, "odooctl:project", Plain(m.project))
    && Holds(tags, "odooctl:environment", Plain(m.environment))
  }

  predicate TagsMatch(tags: Tags, wanted: Tags) {
    forall k :: k in wanted ==> Holds(tags, k, wanted[k])
  }

  lemma TagsMatchIff(tags: Tags, zone: string, m: Manifest, r: Resource)
    ensures TagsMatch(tags, RecoveryTags(zone, m, r)) <==> TaggedFor(tags, zone, m, r)
  {
    var wanted := RecoveryTags(zone, m, r);
    TagNamesDiffer();
    assert "odooctl:restored-from" in wanted && "odooctl:restore-set" in wanted && "odooctl:restore" in wanted
        && "odooctl:project" in wanted && "odooctl:environment" in wanted;
  }

  lemma TagNamesDiffer()
    ensures "odooctl:restored-from" !in {"odooctl:restore-set", RESTORE_TAG, "odooctl:project", "odooctl:environment"}
    ensures "odooctl:restore-set" !in {RESTORE_TAG, "odooctl:project", "odooctl:environment"}
    ensures RESTORE_TAG !in {"odooctl:project", "odooctl:environment"} && "odooctl:project" != "odooctl:environment"
  {
    assert |"odooctl:restored-from"| == 21 && |"odooctl:restore-set"| == 19 && "odooctl:environment"[8] == 'e'
        && "odooctl:restore-set"[8] == 'r' && "odooctl:project"[8] == 'p' && RESTORE_TAG[8] == 'r';
  }

  // A volume passes for a resource exactly if it comes from its snapshot, in the recovery zone, is unattached, is as
  // recorded where anything is recorded, and carries the five tags.
  lemma ValidatedIff(zone: string, v: Volume, m: Manifest, r: Resource)
    ensures Validated(zone, v, m, r) <==>
            && v.snapshotId == r.snapshotId && v.zone == zone && !v.attached
            && (r.sizeGib.Some? ==> v.size == r.sizeGib.value)
            && (r.volumeType.Some? ==> v.volumeType == r.volumeType.value)
            && (r.iops.Some? ==> v.iops == r.iops.value)
            && (r.throughput.Some? ==> v.throughput == r.throughput.value)
            && (r.encrypted.Some? ==> v.encrypted == r.encrypted.value)
            && (r.kmsKeyId.Some? ==> v.kmsKeyId == r.kmsKeyId.value)
            && TaggedFor(v.tags, zone, m, r)
  {
    TagsMatchIff(v.tags, zone, m, r);
  }

  // What a restore may be planned for.
  lemma PlannableIff(region: string, m: Manifest)
    ensures Plannable(region, m) <==>
            && m.provider == "aws_ebs" && m.status == "complete" && |m.resources| > 0
            && (forall i :: 0 <= i < |m.resources| ==>
                  m.resources[i].state == "completed" && |m.resources[i].snapshotId| > 0)
            && (m.region in {None, Some(""), Some(region)})
  {
  }

  // ---------------------------------------------------------------- the account

  // The provider's choice for everything a request leaves open.
  datatype Defaults = Defaults(size: int, volumeType: string, iops: int, throughput: int, encrypted: bool,
      kmsKeyId: string)

  function NewVolume(id: VolumeId, r: Request, d: Defaults): Volume {
    Volume(id, r.snapshotId, r.zone, r.tags, "creating", false, d.size, r.volumeType.GetOr(d.volumeType),
           r.iops.GetOr(d.iops), r.throughput.GetOr(d.throughput), d.encrypted, d.kmsKeyId)
  }

  // The new volume passes validation exactly if what the request leaves open comes out as recorded: size, encryption
  // and key always, the type unless one is recorded, and performance only for the types that allow to ask for it.
  lemma NewVolumeValidatedIff(zone: string, m: Manifest, r: Resource, id: VolumeId, d: Defaults)
    ensures Validated(zone, NewVolume(id, RestoreRequest(zone, m, r), d), m, r) <==>
            && Agrees(r.sizeGib, d.size) && Agrees(r.encrypted, d.encrypted) && Agrees(r.kmsKeyId, d.kmsKeyId)
            && (r.volumeType == Some("") ==> d.volumeType == "")
            && (r.volumeType !in {Some("gp3"), Some("io1"), Some("io2")} ==> Agrees(r.iops, d.iops))
            && (r.volumeType != Some("gp3") ==> Agrees(r.throughput, d.throughput))
  {
  }

  // The volume that the request creates is of the snapshot, in the recovery zone, carries the five tags, and has the
  // type and performance recorded as far as these can be asked for.
  lemma RequestedVolume(zone: string, m: Manifest, r: Resource, id: VolumeId, d: Defaults)
    ensures var v := NewVolume(id, RestoreRequest(zone, m, r), d);
            && v.snapshotId == r.snapshotId && v.zone == zone && !v.attached
            && TaggedFor(v.tags, zone, m, r)
            && RestoreRequest(zone, m, r).token == v.tags[RESTORE_TAG]
            && (r.volumeType.Some? && r.volumeType.value != "" ==> v.volumeType == r.volumeType.value)
            && (r.iops.Some? && r.volumeType in {Some("gp3"), Some("io1"), Some("io2")} ==> v.iops == r.iops.value)
            && (r.throughput.Some? && r.volumeType == Some("gp3") ==> v.throughput == r.throughput.value)
  {
    TagsMatchIff(RecoveryTags(zone, m, r), zone, m, r);
  }

  predicate Own(r: Request) {
    RESTORE_TAG in r.tags && r.tags[RESTORE_TAG] == r.token
  }

  // A volume tagged with a token is the one that token was granted, so a token tags at most one volume.
  ghost predicate OneVolumePerToken(volumes: map<VolumeId, Volume>, granted: Grants) {
    && (forall v :: v in volumes ==>
          volumes[v].id == v && RESTORE_TAG in volumes[v].tags && volumes[v].tags[RESTORE_TAG] in granted
          && granted[volumes[v].tags[RESTORE_TAG]].volume == v)
    && (forall t :: t in granted ==> granted[t].volume in volumes && volumes[granted[t].volume].tags[RESTORE_TAG] == t)
  }

  // Some of the volumes with this tag value, and how many were missed.
  method Tagged(volumes: map<VolumeId, Volume>, ghost granted: Grants, token: Text)
    returns (listed: seq<Volume>, missed: nat)
    requires OneVolumePerToken(volumes, granted)
    ensures |listed| <= 1
    ensures forall v :: v in listed ==>
              token in granted && v.id == granted[token].volume && v.id in volumes && volumes[v.id] == v
    ensures listed == [] && token in granted ==> missed > 0
  {
    listed, missed := [], 0;
    var left := volumes.Keys;
    while left != {}
      invariant left <= volumes.Keys && |listed| <= 1
      invariant listed != [] ==> token in granted && listed[0].id == granted[token].volume
      invariant listed != [] ==> listed[0].id !in left && listed[0].id in volumes && volumes[listed[0].id] == listed[0]
      invariant listed == [] && token in granted ==> granted[token].volume in left || missed > 0
    {
      var v :| v in left;
      left := left - {v};
      if volumes[v].tags[RESTORE_TAG] == token {
        if * {
          listed := [volumes[v]];
        } else {
          missed := missed + 1;
        }
      }
    }
  }

  // No grant is ever lost or changed.
  ghost predicate Kept(before: Grants, after: Grants) {
    forall t :: t in before ==> t in after && after[t] == before[t]
  }

  class Cloud {
    const account: string
    var snapshots: map<string, RemoteSnapshot>
    var volumes: map<VolumeId, Volume>
    var granted: Grants
    var next: VolumeId
    ghost var sent: seq<Request>
    // Calls that raised, and volumes that a listing missed.
    ghost var faults: nat

    ghost predicate Valid()
      reads this
    {
      OneVolumePerToken(volumes, granted) && forall v :: v in volumes ==> v < next
    }

    constructor (account: string, snapshots: map<string, RemoteSnapshot>)
      ensures Valid() && granted == map[] && sent == [] && faults == 0
      ensures this.account == account && this.snapshots == snapshots
    {
      this.account, this.snapshots := account, snapshots;
      volumes, granted, next, sent, faults := map[], map[], 0, [], 0;
    }

    method Provision(r: Request, d: Defaults)
      requires Valid() && Own(r) && r.token !in granted
      modifies this
      ensures Valid() && sent == old(sent) && faults == old(faults)
      ensures granted == old(granted)[r.token := Grant(r, old(next))]
      ensures volumes == old(volumes)[old(next) := NewVolume(old(next), r, d)]
    {
      volumes := volumes[next := NewVolume(next, r, d)];
      granted := granted[r.token := Grant(r, next)];
      next := next + 1;
    }

    method ProvisionAny(r: Request)
      requires Valid() && Own(r) && r.token !in granted
      modifies this
      ensures Valid() && sent == old(sent) && faults == old(faults)
      ensures Kept(old(granted), granted) && r.token in granted && granted[r.token].request == r
    {
      var d: Defaults := *;
      Provision(r, d);
    }

    // A volume changes state, or is attached or detached.
    method Change(v: VolumeId, state: string, attached: bool)
      requires Valid() && v in volumes
      modifies this`volumes
      ensures Valid()
    {
      volumes := volumes[v := volumes[v].(state := state, attached := attached)];
    }

    method OtherStep()
      requires Valid()
      modifies this
      ensures Valid() && sent == old(sent) && faults == old(faults) && Kept(old(granted), granted)
    {
      var r: Request := *;
      var v: VolumeId := *;
      var state: string := *;
      var attached := *;
      snapshots := *;
      if Own(r) && r.token !in granted {
        ProvisionAny(r);
      } else if v in volumes {
        Change(v, state, attached);
      }
    }

    // Anything other processes do between two calls of this one.
    method Others()
      requires Valid()
      modifies this
      ensures Valid() && sent == old(sent) && faults == old(faults) && Kept(old(granted), granted)
    {
      var n: nat := *;
      while n > 0
        invariant Valid() && sent == old(sent) && faults == old(faults) && Kept(old(granted), granted)
      {
        OtherStep();
        n := n - 1;
      }
    }

    // The account behind the credentials; None when the call raises or names none.
    method Identity() returns (r: Option<string>)
      requires Valid()
      modifies this
      ensures Valid() && sent == old(sent) && Kept(old(granted), granted) && faults >= old(faults)
      ensures if r.Some? then r.value == account else faults > old(faults)
    {
      Others();
      if * {
        faults := faults + 1;
        return None;
      }
      return Some(account);
    }

    // The snapshots with these ids. The call raises when one does not exist, or for any other cause.
    method DescribeSnapshots(m: Manifest) returns (found: Option<seq<RemoteSnapshot>>)
      requires Valid()
      modifies this
      ensures Valid() && sent == old(sent) && Kept(old(granted), granted) && faults >= old(faults)
      ensures found.Some? ==> Describes(snapshots, m, found.value)
      ensures found.None? ==> faults > old(faults) || !RemoteComplete(snapshots, m)
    {
      Others();
      if * {
        faults := faults + 1;
        return None;
      }
      var listed: seq<RemoteSnapshot> := [];
      for i := 0 to |m.resources|
        invariant forall d :: d in listed ==> d.snapshotId in snapshots && snapshots[d.snapshotId] == d
        invariant forall d :: d in listed ==> exists r :: r in m.resources && r.snapshotId == d.snapshotId
        invariant forall j :: 0 <= j < i ==>
                    m.resources[j].snapshotId in snapshots && snapshots[m.resources[j].snapshotId] in listed
      {
        assert m.resources[i] in m.resources;
        var id := m.resources[i].snapshotId;
        // The provider's items carry the ids they are found by.
        if id !in snapshots || snapshots[id].snapshotId != id {
          return None;
        }
        listed := listed + [snapshots[id]];
      }
      return Some(listed);
    }

    // None when the call raises. A token seen before gives its volume again, or an error if the request differs.
    method CreateVolume(r: Request) returns (reply: Option<VolumeId>)
      requires Valid() && Own(r)
      modifies this
      ensures Valid() && Kept(old(granted), granted) && sent == old(sent) + [r]
      ensures faults >= old(faults)
      ensures reply.Some? ==> r.token in granted && granted[r.token] == Grant(r, reply.value)
      ensures reply.None? ==> faults > old(faults) || (r.token in granted && granted[r.token].request != r)
    {
      Others();
      sent := sent + [r];
      if * {
        faults := faults + 1;
        return None;
      }
      if r.token !in granted {
        ProvisionAny(r);
      } else if granted[r.token].request != r {
        return None;
      }
      if * {
        faults := faults + 1;
        return None;
      }
      return Some(granted[r.token].volume);
    }

    // Volumes with this tag value. The listing may miss any of them, and the call may raise.
    method DescribeByTag(token: Text) returns (found: Option<seq<Volume>>)
      requires Valid()
      modifies this
      ensures Valid() && sent == old(sent) && Kept(old(granted), granted) && faults >= old(faults)
      ensures found.Some? ==> |found.value| <= 1
      ensures found.None? || (found.value == [] && token in granted) ==> faults > old(faults)
      ensures found.Some? ==> forall v :: v in found.value ==>
                token in granted && v.id == granted[token].volume && volumes[v.id] == v
    {
      Others();
      if * {
        faults := faults + 1;
        return None;
      }
      var listed, missed := Tagged(volumes, granted, token);
      faults := faults + missed;
      return Some(listed);
    }

    method Describe(ids: seq<VolumeId>) returns (found: Option<seq<Volume>>)
      requires Valid()
      modifies this
      ensures Valid() && sent == old(sent) && Kept(old(granted), granted) && faults >= old(faults)
      ensures found.Some? ==> forall v :: v in found.value ==> v.id in volumes && volumes[v.id] == v && v.id in ids
      ensures faults == old(faults) ==> if found.None? then exists id :: id in ids && id !in volumes
                                        else forall id :: id in ids ==> id in Ids(found.value)
    {
      Others();
      if * {
        faults := faults + 1;
        return None;
      }
      var listed: seq<Volume> := [];
      for i := 0 to |ids|
        invariant Valid() && sent == old(sent) && Kept(old(granted), granted)
        invariant forall v :: v in listed ==> v.id in volumes && volumes[v.id] == v && v.id in ids
        invariant faults >= old(faults) && (faults == old(faults) ==> forall j :: 0 <= j < i ==> ids[j] in Ids(listed))
      {
        if ids[i] !in volumes {
          return None;
        }
        if * {
          IdsOneMore(listed, volumes[ids[i]]);
          listed := listed + [volumes[ids[i]]];
        } else {
          faults := faults + 1;
        }
      }
      return Some(listed);
    }
  }

  // ---------------------------------------------------------------- one attempt

  // These are the volumes of the first resources, in manifest order.
  ghost predicate Assigned(granted: Grants, zone: string, m: Manifest, ids: seq<VolumeId>) {
    && |ids| <= |m.resources|
    && forall i :: 0 <= i < |ids| ==>
         Token(zone, m, m.resources[i]) in granted && granted[Token(zone, m, m.resources[i])].volume == ids[i]
  }

  datatype Report = Report(ids: seq<VolumeId>, complete: bool)

  datatype Outcome = Refused | Done(report: Report) | Failed(ids: seq<VolumeId>)

  // What all reports of a run say: each the volumes of a prefix of the resources.
  ghost predicate AllAssigned(granted: Grants, zone: string, m: Manifest, reports: seq<Report>) {
    forall i :: 0 <= i < |reports| ==> Assigned(granted, zone, m, reports[i].ids)
  }

  // Each report extends the one before it.
  ghost predicate Growing(reports: seq<Report>) {
    forall i, j :: 0 <= i < j < |reports| ==> reports[i].ids <= reports[j].ids
  }

  lemma AssignedKept(before: Grants, after: Grants, zone: string, m: Manifest, ids: seq<VolumeId>)
    requires Assigned(before, zone, m, ids) && Kept(before, after)
    ensures Assigned(after, zone, m, ids)
  {
  }

  lemma ReportsKept(before: Grants, after: Grants, zone: string, m: Manifest, reports: seq<Report>)
    requires AllAssigned(before, zone, m, reports) && Kept(before, after)
    ensures AllAssigned(after, zone, m, reports)
  {
    forall i | 0 <= i < |reports| ensures Assigned(after, zone, m, reports[i].ids) {
      AssignedKept(before, after, zone, m, reports[i].ids);
    }
  }

  // Lists reported by any two attempts, cut off anywhere, agree as far as both go.
  lemma PrefixesOfOneList(granted: Grants, zone: string, m: Manifest, a: seq<VolumeId>, b: seq<VolumeId>)
    requires Assigned(granted, zone, m, a) && Assigned(granted, zone, m, b)
    ensures a <= b || b <= a
  {
    if |a| <= |b| {
      assert forall i :: 0 <= i < |a| ==> a[i] == b[i];
    } else {
      assert forall i :: 0 <= i < |b| ==> a[i] == b[i];
    }
  }

  // Two resources share a volume exactly when they name one snapshot.
  lemma SharedVolumeIsSharedSnapshot(volumes: map<VolumeId, Volume>, granted: Grants, zone: string, m: Manifest,
                                     ids: seq<VolumeId>, i: nat, j: nat)
    requires OneVolumePerToken(volumes, granted) && Assigned(granted, zone, m, ids) && i < |ids| && j < |ids|
    ensures ids[i] == ids[j] <==> m.resources[i].snapshotId == m.resources[j].snapshotId
  {
    TokenNamesSnapshot(zone, m, m.resources[i], m.resources[j]);
    var t, u := Token(zone, m, m.resources[i]), Token(zone, m, m.resources[j]);
    assert volumes[granted[t].volume].tags[RESTORE_TAG] == t && volumes[granted[u].volume].tags[RESTORE_TAG] == u;
  }

  lemma AssignedOneMore(granted: Grants, zone: string, m: Manifest, ids: seq<VolumeId>, v: VolumeId)
    requires Assigned(granted, zone, m, ids) && |ids| < |m.resources|
    requires Token(zone, m, m.resources[|ids|]) in granted && granted[Token(zone, m, m.resources[|ids|])].volume == v
    ensures Assigned(granted, zone, m, ids + [v])
  {
  }

  // Every volume is unattached, available and the one its resource asks for.
  ghost predicate AllReady(volumes: map<VolumeId, Volume>, zone: string, m: Manifest, ids: seq<VolumeId>) {
    && |ids| == |m.resources|
    && forall i :: 0 <= i < |ids| ==>
         ids[i] in volumes && volumes[ids[i]].state == "available"
             && Validated(zone, volumes[ids[i]], m, m.resources[i])
  }

  // The requests sent are for the first resources only.
  ghost predicate SentFor(sent: seq<Request>, zone: string, m: Manifest, upTo: nat) {
    upTo <= |m.resources|
    && forall q :: q in sent ==> exists i :: 0 <= i < upTo && q == RestoreRequest(zone, m, m.resources[i])
  }

  class EbsProvider {
    const cloud: Cloud
    const region: string
    const zone: string

    constructor (cloud: Cloud, region: string, zone: string)
      ensures this.cloud == cloud && this.region == region && this.zone == zone
    {
      this.cloud, this.region, this.zone := cloud, region, zone;
    }

    // What restore demands of the manifest and the provider before it creates anything.
    ghost predicate Restorable(m: Manifest)
      reads cloud
    {
      Plannable(region, m) && InScope(m.account, cloud.account) && RemoteComplete(cloud.snapshots, m)
    }

    method ValidateAccountScope(m: Manifest) returns (ok: bool)
      requires cloud.Valid()
      modifies cloud
      ensures cloud.Valid() && cloud.sent == old(cloud.sent) && Kept(old(cloud.granted), cloud.granted)
                && cloud.faults >= old(cloud.faults)
      ensures ok ==> InScope(m.account, cloud.account)
      ensures !ok ==> cloud.faults > old(cloud.faults) || !InScope(m.account, cloud.account)
    {
      if Filled(m.account).None? {
        return true;
      }
      var actual := cloud.Identity();
      return actual == Filled(m.account);
    }

    method AssertRemoteComplete(m: Manifest) returns (ok: bool)
      requires cloud.Valid()
      modifies cloud
      ensures cloud.Valid() && cloud.sent == old(cloud.sent) && Kept(old(cloud.granted), cloud.granted)
                && cloud.faults >= old(cloud.faults)
      ensures ok ==> RemoteComplete(cloud.snapshots, m)
      ensures !ok ==> cloud.faults > old(cloud.faults) || !RemoteComplete(cloud.snapshots, m)
    {
      var described := cloud.DescribeSnapshots(m);
      if described.None? {
        return false;
      }
      PairsDecide(cloud.snapshots, m, described.value);
      return DescribedPairs(described.value) == Pairs(m) && forall d :: d in described.value ==> d.state == "completed";
    }

    // The checks before the first volume is asked for.
    method Preflight(m: Manifest) returns (ok: bool)
      requires cloud.Valid()
      modifies cloud
      ensures cloud.Valid() && cloud.sent == old(cloud.sent) && Kept(old(cloud.granted), cloud.granted)
                && cloud.faults >= old(cloud.faults)
      ensures ok ==> Restorable(m)
      ensures !ok ==> cloud.faults > old(cloud.faults) || !Restorable(m)
    {
      // The probe of the command line tool.
      if * {
        cloud.faults := cloud.faults + 1;
        return false;
      }
      ok := ValidateAccountScope(m);
      if !ok || !Plannable(region, m) {
        return false;
      }
      ok := AssertRemoteComplete(m);
    }

    // What was read is still so.
    ghost predicate Current(v: Volume)
      reads cloud
    {
      v.id in cloud.volumes && cloud.volumes[v.id] == v
    }

    method FindRestoredVolume(token: Text) returns (ok: bool, found: Option<Volume>)
      requires cloud.Valid()
      modifies cloud
      ensures cloud.Valid() && cloud.sent == old(cloud.sent) && Kept(old(cloud.granted), cloud.granted)
                && cloud.faults >= old(cloud.faults)
      ensures ok && found.Some? ==>
                token in cloud.granted && found.value.id == cloud.granted[token].volume && Current(found.value)
      ensures !ok || (found.None? && token in cloud.granted) ==> cloud.faults > old(cloud.faults)
    {
      var volumes := cloud.DescribeByTag(token);
      if volumes.None? || |volumes.value| > 1 {
        return false, None;
      }
      if volumes.value == [] {
        return true, None;
      }
      assert volumes.value[0] in volumes.value;
      return true, Some(volumes.value[0]);
    }

    method ReconcileUncertain(token: Text, retries: nat) returns (found: Option<Volume>)
      requires cloud.Valid()
      modifies cloud
      ensures cloud.Valid() && cloud.sent == old(cloud.sent) && Kept(old(cloud.granted), cloud.granted)
                && cloud.faults >= old(cloud.faults)
      ensures found.Some? ==>
                token in cloud.granted && found.value.id == cloud.granted[token].volume && Current(found.value)
      ensures found.None? && token in old(cloud.granted) ==> cloud.faults > old(cloud.faults)
    {
      var n := 0;
      while n <= retries
        invariant n > 0 && token in old(cloud.granted) ==> cloud.faults > old(cloud.faults)
        invariant cloud.Valid() && cloud.sent == old(cloud.sent) && Kept(old(cloud.granted), cloud.granted)
                    && cloud.faults >= old(cloud.faults)
      {
        var ok, f := FindRestoredVolume(token);
        if ok && f.Some? {
          return f;
        }
        n := n + 1;
      }
      return None;
    }

    // The volume of one resource: found by its tag, created, or found after an uncertain creation.
    method ObtainVolume(m: Manifest, r: Resource, retries: nat)
      returns (volume: Option<VolumeId>, reconciled: Option<Volume>)
      requires cloud.Valid()
      modifies cloud
      ensures cloud.Valid() && Kept(old(cloud.granted), cloud.granted) && cloud.faults >= old(cloud.faults)
      ensures cloud.sent == old(cloud.sent) || cloud.sent == old(cloud.sent) + [RestoreRequest(zone, m, r)]
      ensures volume.Some? ==>
                Token(zone, m, r) in cloud.granted && volume.value == cloud.granted[Token(zone, m, r)].volume
      ensures reconciled.Some? ==> volume == Some(reconciled.value.id) && Current(reconciled.value)
      ensures volume.Some? && cloud.sent == old(cloud.sent) ==> reconciled.Some?
      ensures volume.None? ==> cloud.faults > old(cloud.faults)
    {
      var request := RestoreRequest(zone, m, r);
      var ok, found := FindRestoredVolume(request.token);
      if !ok {
        return None, None;
      }
      if found.Some? {
        return Some(found.value.id), found;
      }
      var reply := cloud.CreateVolume(request);
      if reply.Some? {
        return reply, None;
      }
      found := ReconcileUncertain(request.token, retries);
      if found.None? {
        return None, None;
      }
      return Some(found.value.id), found;
    }

    // The creation loop. It stops with ok false when a call fails or a found volume is not as asked for.
    method CreateAll(m: Manifest, retries: nat) returns (ok: bool, ids: seq<VolumeId>, reports: seq<Report>)
      requires cloud.Valid()
      modifies cloud
      ensures cloud.Valid() && Kept(old(cloud.granted), cloud.granted) && cloud.faults >= old(cloud.faults)
      ensures Asked(old(cloud.sent), cloud.sent, zone, m, |m.resources|)
      ensures Progress(cloud.granted, zone, m, ids, reports)
      ensures ok ==> |ids| == |m.resources|
      ensures !ok ==> cloud.faults > old(cloud.faults) || Unfit(cloud.volumes, zone, m, ids)
    {
      ids, reports := [], [];
      var i := 0;
      while i < |m.resources|
        invariant i <= |m.resources| && |ids| == i
        invariant cloud.Valid() && Kept(old(cloud.granted), cloud.granted) && cloud.faults >= old(cloud.faults)
        invariant Asked(old(cloud.sent), cloud.sent, zone, m, i)
        invariant Progress(cloud.granted, zone, m, ids, reports)
      {
        AskedOneMore(old(cloud.sent), cloud.sent, zone, m, i);
        var more, extended, told := CreateNext(m, ids, reports, retries);
        if !more {
          AskedLater(old(cloud.sent), cloud.sent, zone, m, i + 1, |m.resources|);
          return false, extended, told;
        }
        ids, reports, i := extended, told, i + 1;
      }
      return true, ids, reports;
    }

    // One round of the creation loop.
    method CreateNext(m: Manifest, ids: seq<VolumeId>, reports: seq<Report>, retries: nat)
      returns (ok: bool, extended: seq<VolumeId>, told: seq<Report>)
      requires cloud.Valid() && |ids| < |m.resources|
      requires Progress(cloud.granted, zone, m, ids, reports)
      modifies cloud
      ensures cloud.Valid() && Kept(old(cloud.granted), cloud.granted) && cloud.faults >= old(cloud.faults)
      ensures cloud.sent == old(cloud.sent)
                || cloud.sent == old(cloud.sent) + [RestoreRequest(zone, m, m.resources[|ids|])]
      ensures Progress(cloud.granted, zone, m, extended, told)
      ensures ok ==> |extended| == |ids| + 1
      ensures ok && cloud.sent == old(cloud.sent) ==>
                extended[|ids|] in cloud.volumes
                && Validated(zone, cloud.volumes[extended[|ids|]], m, m.resources[|ids|])
      ensures !ok ==> cloud.faults > old(cloud.faults) || Unfit(cloud.volumes, zone, m, extended)
    {
      var resource := m.resources[|ids|];
      var volume, reconciled := ObtainVolume(m, resource, retries);
      ProgressKept(old(cloud.granted), cloud.granted, zone, m, ids, reports);
      if volume.None? {
        return false, ids, reports;
      }
      extended := ids + [volume.value];
      ProgressOneMore(cloud.granted, zone, m, ids, reports, volume.value);
      if reconciled.Some? && !Validated(zone, reconciled.value, m, resource) {
        assert !Fit(cloud.volumes, zone, m, extended, |ids|);
        return false, extended, reports;
      }
      told := reports + [Report(extended, false)];
      return true, extended, told;
    }

    // Every restored volume, described; an error unless exactly these volumes were.
    method DescribeRestored(ids: seq<VolumeId>, ghost m: Manifest) returns (found: Option<seq<Volume>>)
      requires cloud.Valid() && Assigned(cloud.granted, zone, m, ids)
      modifies cloud
      ensures cloud.Valid() && cloud.sent == old(cloud.sent) && Kept(old(cloud.granted), cloud.granted)
                && cloud.faults >= old(cloud.faults)
      ensures found.Some? ==> forall v :: v in found.value ==> v.id in cloud.volumes && cloud.volumes[v.id] == v
      ensures found.Some? ==> Ids(found.value) == set id | id in ids
      ensures found.None? ==> cloud.faults > old(cloud.faults)
    {
      found := cloud.Describe(ids);
      assert Assigned(cloud.granted, zone, m, ids);
      if found.Some? && Ids(found.value) != set id | id in ids {
        return None;
      }
    }

    method ById(volumes: seq<Volume>) returns (byId: map<VolumeId, Volume>)
      ensures byId.Keys == Ids(volumes)
      ensures forall id :: id in byId ==> byId[id] in volumes && byId[id].id == id
    {
      byId := map[];
      for i := 0 to |volumes|
        invariant forall j :: 0 <= j < i ==> volumes[j].id in byId
        invariant forall id :: id in byId ==> byId[id] in volumes && byId[id].id == id
      {
        byId := byId[volumes[i].id := volumes[i]];
      }
    }

    method AllValidated(m: Manifest, ids: seq<VolumeId>, volumes: seq<Volume>) returns (ok: bool)
      requires |ids| == |m.resources|
      requires Ids(volumes) == set id | id in ids
      ensures ok ==> forall i :: 0 <= i < |ids| ==> Confirmed(zone, volumes, ids[i], m, m.resources[i])
      ensures !ok ==>
                exists i, v ::
                0 <= i < |ids| && v in volumes && v.id == ids[i] && !Validated(zone, v, m, m.resources[i])
    {
      var byId := ById(volumes);
      for i := 0 to |ids|
        invariant forall j :: 0 <= j < i ==> Confirmed(zone, volumes, ids[j], m, m.resources[j])
      {
        assert ids[i] in ids;
        if !Validated(zone, byId[ids[i]], m, m.resources[i]) {
          return false;
        }
      }
      return true;
    }

    // One poll of the restored volumes.
    method Poll(m: Manifest, ids: seq<VolumeId>) returns (status: Status)
      requires cloud.Valid() && |ids| == |m.resources| && Assigned(cloud.granted, zone, m, ids)
      modifies cloud
      ensures cloud.Valid() && cloud.sent == old(cloud.sent) && Kept(old(cloud.granted), cloud.granted)
                && cloud.faults >= old(cloud.faults)
      ensures status.Available? ==> AllReady(cloud.volumes, zone, m, ids)
      ensures status.Waiting? ==> !AllReady(cloud.volumes, zone, m, ids)
      ensures status.Broken? ==> cloud.faults > old(cloud.faults) || Unfit(cloud.volumes, zone, m, ids)
    {
      var volumes := DescribeRestored(ids, m);
      if volumes.None? {
        return Broken;
      }
      var ok := AllValidated(m, ids, volumes.value);
      if !ok {
        ghost var i, v :| 0 <= i < |ids| && v in volumes.value && v.id == ids[i]
            && !Validated(zone, v, m, m.resources[i]);
        assert !Fit(cloud.volumes, zone, m, ids, i);
        return Broken;
      }
      if forall v :: v in volumes.value ==> v.state == "available" {
        return Available;
      }
      if exists v :: v in volumes.value && v.state in {"deleted", "deleting", "error"} {
        ghost var v :| v in volumes.value && v.state in {"deleted", "deleting", "error"};
        assert v.id in Ids(volumes.value);
        ghost var i :| 0 <= i < |ids| && ids[i] == v.id;
        assert !Fit(cloud.volumes, zone, m, ids, i);
        return Broken;
      }
      ghost var waiting :| waiting in volumes.value && waiting.state != "available";
      assert waiting.id in Ids(volumes.value);
      ghost var k :| 0 <= k < |ids| && ids[k] == waiting.id;
      return Waiting;
    }

    // Poll until the deadline, which leaves time for so many polls.
    method Await(m: Manifest, ids: seq<VolumeId>, polls: nat) returns (status: Status)
      requires cloud.Valid() && |ids| == |m.resources| && Assigned(cloud.granted, zone, m, ids)
      modifies cloud
      ensures cloud.Valid() && cloud.sent == old(cloud.sent) && Kept(old(cloud.granted), cloud.granted)
                && cloud.faults >= old(cloud.faults)
      ensures status.Available? ==> AllReady(cloud.volumes, zone, m, ids)
      ensures status.Waiting? ==> !AllReady(cloud.volumes, zone, m, ids)
      ensures status.Broken? ==> cloud.faults > old(cloud.faults) || Unfit(cloud.volumes, zone, m, ids)
    {
      var n := 0;
      while true
        invariant n <= polls && Assigned(cloud.granted, zone, m, ids)
        invariant cloud.Valid() && cloud.sent == old(cloud.sent) && Kept(old(cloud.granted), cloud.granted)
                    && cloud.faults >= old(cloud.faults)
        decreases polls - n
      {
        status := Poll(m, ids);
        if !status.Waiting? || n == polls {
          return;
        }
        n := n + 1;
      }
    }

    // Whatever happens, the volumes reported are those granted to the first resources in manifest order, nothing but
    // volumes for this manifest was asked for, and a result is complete exactly if every volume is ready now.
    method Restore(m: Manifest, retries: nat, polls: nat) returns (outcome: Outcome, reports: seq<Report>)
      requires cloud.Valid()
      modifies cloud
      ensures cloud.Valid() && Kept(old(cloud.granted), cloud.granted) && cloud.faults >= old(cloud.faults)
      ensures Asked(old(cloud.sent), cloud.sent, zone, m, |m.resources|)
      ensures Tells(cloud.granted, zone, m, outcome, reports)
      ensures outcome.Refused? ==> cloud.sent == old(cloud.sent)
      ensures !Plannable(region, m) || !InScope(m.account, cloud.account) ==> outcome.Refused?
      ensures outcome.Refused? ==> cloud.faults > old(cloud.faults) || !Restorable(m)
      ensures outcome.Failed? ==> cloud.faults > old(cloud.faults) || Unfit(cloud.volumes, zone, m, outcome.ids)
      ensures outcome.Done? ==> (outcome.report.complete <==> AllReady(cloud.volumes, zone, m, outcome.report.ids))
    {
      var checked := Preflight(m);
      if !checked {
        return Refused, [];
      }
      var ok, ids, told := CreateAll(m, retries);
      if !ok {
        return Failed(ids), told;
      }
      ghost var granted := cloud.granted;
      var status := Await(m, ids, polls);
      ProgressKept(granted, cloud.granted, zone, m, ids, told);
      if status.Broken? {
        return Failed(ids), told;
      }
      var last := Report(ids, status.Available?);
      ReportedLast(cloud.granted, zone, m, ids, told, last);
      return Done(last), told + [last];
    }

    // Any number of attempts at one manifest, each cut off anywhere, among whatever other processes do. What they tell,
    // attempt by attempt, are prefixes of one list.
    method Attempts(m: Manifest, retries: nat, polls: nat, attempts: nat) returns (all: seq<Attempt>)
      requires cloud.Valid()
      modifies cloud
      ensures cloud.Valid() && Kept(old(cloud.granted), cloud.granted) && cloud.faults >= old(cloud.faults)
      ensures Asked(old(cloud.sent), cloud.sent, zone, m, |m.resources|)
      ensures |all| == attempts
      ensures forall i :: 0 <= i < |all| ==> Tells(cloud.granted, zone, m, all[i].outcome, all[i].reports)
      ensures forall i, j, a, b ::
                0 <= i < |all| && 0 <= j < |all| && a in all[i].reports && b in all[j].reports ==>
                    a.ids <= b.ids || b.ids <= a.ids
    {
      all := [];
      for n := 0 to attempts
        invariant cloud.Valid() && Kept(old(cloud.granted), cloud.granted) && cloud.faults >= old(cloud.faults)
        invariant Asked(old(cloud.sent), cloud.sent, zone, m, |m.resources|)
        invariant |all| == n
        invariant forall i :: 0 <= i < n ==> Tells(cloud.granted, zone, m, all[i].outcome, all[i].reports)
      {
        ghost var granted, sent := cloud.granted, cloud.sent;
        var outcome, reports := Restore(m, retries, polls);
        forall i | 0 <= i < n ensures Tells(cloud.granted, zone, m, all[i].outcome, all[i].reports) {
          TellsKept(granted, cloud.granted, zone, m, all[i].outcome, all[i].reports);
        }
        AskedTwice(old(cloud.sent), sent, cloud.sent, zone, m, |m.resources|);
        all := all + [Attempt(outcome, reports)];
      }
      forall i, j, a, b | 0 <= i < |all| && 0 <= j < |all| && a in all[i].reports && b in all[j].reports
        ensures a.ids <= b.ids || b.ids <= a.ids
      {
        PrefixesOfOneList(cloud.granted, zone, m, a.ids, b.ids);
      }
    }
  }

  datatype Attempt = Attempt(outcome: Outcome, reports: seq<Report>)

  // The reports of an attempt and its outcome: growing lists of the volumes granted to the first resources; none before
  // a refusal, only incomplete ones no longer than what a failure names, and the result itself as the last one.
  ghost predicate Tells(granted: Grants, zone: string, m: Manifest, outcome: Outcome, reports: seq<Report>) {
    && AllAssigned(granted, zone, m, reports)
    && Growing(reports)
    && match outcome
       case Refused => reports == []
       case Failed(ids) => Assigned(granted, zone, m, ids) && forall r :: r in reports ==> r.ids <= ids && !r.complete
       case Done(report) => reports != [] && report == reports[|reports| - 1] && |report.ids| == |m.resources|
  }

  lemma TellsKept(before: Grants, after: Grants, zone: string, m: Manifest, outcome: Outcome, reports: seq<Report>)
    requires Tells(before, zone, m, outcome, reports) && Kept(before, after)
    ensures Tells(after, zone, m, outcome, reports)
  {
    ReportsKept(before, after, zone, m, reports);
    if outcome.Failed? {
      AssignedKept(before, after, zone, m, outcome.ids);
    }
  }

  function Ids(volumes: seq<Volume>): set<VolumeId> {
    set v | v in volumes :: v.id
  }

  lemma IdsOneMore(volumes: seq<Volume>, v: Volume)
    ensures Ids(volumes + [v]) == Ids(volumes) + {v.id}
  {
    assert v in volumes + [v];
    forall w | w in volumes ensures w in volumes + [v] {
    }
  }

  // The volume of the i-th resource is there, as recorded and in no failure state.
  predicate Fit(volumes: map<VolumeId, Volume>, zone: string, m: Manifest, ids: seq<VolumeId>, i: nat)
    requires i < |ids| && i < |m.resources|
  {
    && ids[i] in volumes
    && volumes[ids[i]].state !in {"deleted", "deleting", "error"}
    && Validated(zone, volumes[ids[i]], m, m.resources[i])
  }

  ghost predicate Unfit(volumes: map<VolumeId, Volume>, zone: string, m: Manifest, ids: seq<VolumeId>) {
    exists i :: 0 <= i < |ids| && i < |m.resources| && !Fit(volumes, zone, m, ids, i)
  }

  // One of the described volumes has this id and is the one the resource asks for.
  ghost predicate Confirmed(zone: string, volumes: seq<Volume>, id: VolumeId, m: Manifest, r: Resource) {
    exists v :: v in volumes && v.id == id && Validated(zone, v, m, r)
  }

  datatype Status = Available | Waiting | Broken

  // What the creation loop keeps: the reports are growing prefixes of the volumes obtained so far.
  ghost predicate Progress(granted: Grants, zone: string, m: Manifest, ids: seq<VolumeId>, reports: seq<Report>) {
    && Assigned(granted, zone, m, ids)
    && AllAssigned(granted, zone, m, reports)
    && Growing(reports)
    && forall r :: r in reports ==> r.ids <= ids && !r.complete
  }

  lemma ProgressKept(before: Grants, after: Grants, zone: string, m: Manifest, ids: seq<VolumeId>, reports: seq<Report>)
    requires Progress(before, zone, m, ids, reports) && Kept(before, after)
    ensures Progress(after, zone, m, ids, reports)
  {
    AssignedKept(before, after, zone, m, ids);
    ReportsKept(before, after, zone, m, reports);
  }

  lemma ProgressOneMore(granted: Grants, zone: string, m: Manifest, ids: seq<VolumeId>, reports: seq<Report>,
                        v: VolumeId)
    requires Progress(granted, zone, m, ids, reports) && |ids| < |m.resources|
    requires Token(zone, m, m.resources[|ids|]) in granted && granted[Token(zone, m, m.resources[|ids|])].volume == v
    ensures Progress(granted, zone, m, ids + [v], reports)
    ensures Progress(granted, zone, m, ids + [v], reports + [Report(ids + [v], false)])
  {
    AssignedOneMore(granted, zone, m, ids, v);
    forall r | r in reports ensures r.ids <= ids + [v] {
      assert ids <= ids + [v];
    }
    ReportedLast(granted, zone, m, ids + [v], reports, Report(ids + [v], false));
  }

  lemma ReportedLast(granted: Grants, zone: string, m: Manifest, ids: seq<VolumeId>, reports: seq<Report>, last: Report)
    requires Progress(granted, zone, m, ids, reports) && last.ids == ids
    ensures AllAssigned(granted, zone, m, reports + [last]) && Growing(reports + [last])
    ensures !last.complete ==> Progress(granted, zone, m, ids, reports + [last])
  {
    var all := reports + [last];
    forall i, j | 0 <= i < j < |all| ensures all[i].ids <= all[j].ids {
      if j == |reports| {
        assert reports[i] in reports;
      }
    }
  }

  // Between the two logs only volumes for the first resources were asked for.
  ghost predicate Asked(before: seq<Request>, after: seq<Request>, zone: string, m: Manifest, upTo: nat) {
    before <= after && SentFor(after[|before|..], zone, m, upTo)
  }

  lemma AskedOneMore(before: seq<Request>, sent: seq<Request>, zone: string, m: Manifest, upTo: nat)
    requires Asked(before, sent, zone, m, upTo) && upTo < |m.resources|
    ensures Asked(before, sent, zone, m, upTo + 1)
    ensures Asked(before, sent + [RestoreRequest(zone, m, m.resources[upTo])], zone, m, upTo + 1)
  {
    var one := RestoreRequest(zone, m, m.resources[upTo]);
    assert (sent + [one])[|before|..] == sent[|before|..] + [one];
  }

  lemma AskedLater(before: seq<Request>, sent: seq<Request>, zone: string, m: Manifest, upTo: nat, later: nat)
    requires Asked(before, sent, zone, m, upTo) && upTo <= later <= |m.resources|
    ensures Asked(before, sent, zone, m, later)
  {
  }

  lemma AskedTwice(a: seq<Request>, b: seq<Request>, c: seq<Request>, zone: string, m: Manifest, upTo: nat)
    requires Asked(a, b, zone, m, upTo) && Asked(b, c, zone, m, upTo)
    ensures Asked(a, c, zone, m, upTo)
  {
    assert c[|a|..] == b[|a|..] + c[|b|..];
  }
}
