/**
 Recording an EBS snapshot set: exactly one snapshot per volume in scope, no snapshot used twice.
 */
module EbsSnapshot {
  import opened Option
  import opened EbsRestore

  // An item the provider returned; "" for an id it left out.
  datatype Described = Described(volumeId: string, snapshotId: string, state: string)

  datatype VolumeMetadata = VolumeMetadata(
    volumeId: string, sizeGib: Option<int>, volumeType: Option<string>, iops: Option<int>, throughput: Option<int>,
    encrypted: Option<bool>, kmsKeyId: Option<string>, availabilityZone: Option<string>, deviceName: Option<string>,
    rootDevice: bool)

  datatype ProviderSnapshot = ProviderSnapshot(resources: seq<Resource>, status: string)

  // ---------------------------------------------------------------- counting without duplicates

  ghost predicate Distinct(xs: seq<string>) {
    forall i, j :: 0 <= i < j < |xs| ==> xs[i] != xs[j]
  }

  function Elements(xs: seq<string>): set<string> {
    set x | x in xs
  }

  // len(set(xs)) == len(xs) says that no two are equal.
  lemma {:induction false} DistinctByCount(xs: seq<string>)
    ensures |Elements(xs)| <= |xs|
    ensures |Elements(xs)| == |xs| <==> Distinct(xs)
  {
    if xs != [] {
      var front, last := xs[..|xs| - 1], xs[|xs| - 1];
      DistinctByCount(front);
      assert xs == front + [last];
      assert Elements(xs) == Elements(front) + {last};
      if last in front {
        assert Elements(xs) == Elements(front);
        var i :| 0 <= i < |front| && front[i] == last;
        assert xs[i] == xs[|xs| - 1];
      } else {
        assert forall i :: 0 <= i < |front| ==> front[i] == xs[i] && xs[i] != last;
      }
    }
  }

  // ---------------------------------------------------------------- what is accepted

  // Of the items that name both, no two name one volume or one snapshot.
  ghost predicate NoneTwice(described: seq<Described>) {
    forall i, j :: 0 <= i < j < |described| ==>
      || described[i].volumeId == "" || described[i].snapshotId == ""
      || described[j].volumeId == "" || described[j].snapshotId == ""
      || (described[i].volumeId != described[j].volumeId && described[i].snapshotId != described[j].snapshotId)
  }

  // What the provider returned is one snapshot for each volume in scope, no other volume's, and none twice, among the
  // items that name both.
  ghost predicate OneEach(described: seq<Described>, scope: set<string>) {
    && (forall d :: d in described && d.volumeId != "" && d.snapshotId != "" ==> d.volumeId in scope)
    && (forall v :: v in scope ==> exists d :: d in described && d.volumeId == v && v != "" && d.snapshotId != "")
    && NoneTwice(described)
  }

  predicate Candidate(d: Described) {
    d.volumeId != "" && d.snapshotId != ""
  }

  // Items naming both ids, in the order returned.
  function Candidates(described: seq<Described>): seq<Described> {
    if described == [] then []
    else
      var before := Candidates(described[..|described| - 1]);
      if Candidate(described[|described| - 1]) then before + [described[|described| - 1]] else before
  }

  predicate Differ(c: Described, d: Described) {
    !Candidate(c) || !Candidate(d) || (c.volumeId != d.volumeId && c.snapshotId != d.snapshotId)
  }

  lemma NoneTwiceAppends(xs: seq<Described>, d: Described)
    ensures NoneTwice(xs + [d]) <==> NoneTwice(xs) && forall c :: c in xs ==> Differ(c, d)
  {
    var all := xs + [d];
    assert forall i :: 0 <= i < |xs| ==> all[i] == xs[i];
    if NoneTwice(all) {
      assert NoneTwice(xs);
      forall c | c in xs ensures Differ(c, d) {
        var i :| 0 <= i < |xs| && xs[i] == c;
        assert all[i] == c && all[|xs|] == d;
      }
    } else if NoneTwice(xs) {
      var i, j :| 0 <= i < j < |all| && !Differ(all[i], all[j]);
      if j < |xs| {
        assert xs[i] == all[i] && xs[j] == all[j] && Differ(xs[i], xs[j]);
      }
      assert all[j] == d && all[i] in xs;
    }
  }

  // Candidates repeat nothing exactly when the items returned do not.
  lemma {:induction false} CandidatesMean(described: seq<Described>)
    ensures forall c :: c in Candidates(described) <==> c in described && Candidate(c)
    ensures NoneTwice(Candidates(described)) <==> NoneTwice(described)
  {
    if described != [] {
      var front, d := described[..|described| - 1], described[|described| - 1];
      assert described == front + [d];
      CandidatesMean(front);
      NoneTwiceAppends(front, d);
      NoneTwiceAppends(Candidates(front), d);
    }
  }

  // Candidates being one for each volume is what the items returned have to be.
  lemma CandidatesDecide(described: seq<Described>, scope: set<string>)
    ensures OneSnapshotPerVolume(Candidates(described), scope) <==> OneEach(described, scope)
  {
    CandidatesMean(described);
    assert forall c :: c in Candidates(described) ==> Candidate(c);
    assert forall i :: 0 <= i < |Candidates(described)| ==> Candidates(described)[i] in Candidates(described);
  }

  function VolumeIds(candidates: seq<Described>): seq<string> {
    seq(|candidates|, i requires 0 <= i < |candidates| => candidates[i].volumeId)
  }

  function SnapshotIds(candidates: seq<Described>): seq<string> {
    seq(|candidates|, i requires 0 <= i < |candidates| => candidates[i].snapshotId)
  }

  // Each volume in scope has one snapshot, no other volume has any, and no snapshot serves two volumes.
  ghost predicate OneSnapshotPerVolume(candidates: seq<Described>, scope: set<string>) {
    && (forall c :: c in candidates ==> c.volumeId in scope)
    && (forall v :: v in scope ==> exists c :: c in candidates && c.volumeId == v)
    && (forall i, j :: 0 <= i < j < |candidates| ==>
          candidates[i].volumeId != candidates[j].volumeId && candidates[i].snapshotId != candidates[j].snapshotId)
  }

  // The four counts the program compares say exactly this.
  lemma CountsDecide(candidates: seq<Described>, scope: set<string>)
    ensures OneSnapshotPerVolume(candidates, scope) <==>
            |candidates| == |scope| && |Elements(VolumeIds(candidates))| == |candidates|
            && |Elements(SnapshotIds(candidates))| == |candidates| && Elements(VolumeIds(candidates)) == scope
  {
    var volumes, snapshots := VolumeIds(candidates), SnapshotIds(candidates);
    DistinctByCount(volumes);
    DistinctByCount(snapshots);
    if OneSnapshotPerVolume(candidates, scope) {
      forall v | v in scope ensures v in volumes {
        var c :| c in candidates && c.volumeId == v;
        var i :| 0 <= i < |candidates| && candidates[i] == c;
        assert volumes[i] == v;
      }
      assert Elements(volumes) == scope;
      assert Distinct(volumes) && Distinct(snapshots);
    }
    if Elements(volumes) == scope && Distinct(volumes) && Distinct(snapshots) {
      CountedIsOne(candidates, scope);
    }
  }

  lemma CountedIsOne(candidates: seq<Described>, scope: set<string>)
    requires Elements(VolumeIds(candidates)) == scope
    requires Distinct(VolumeIds(candidates)) && Distinct(SnapshotIds(candidates))
    ensures OneSnapshotPerVolume(candidates, scope)
  {
    var volumes, snapshots := VolumeIds(candidates), SnapshotIds(candidates);
    forall c | c in candidates ensures c.volumeId in scope {
      var i :| 0 <= i < |candidates| && candidates[i] == c;
      assert volumes[i] in Elements(volumes);
    }
    forall v | v in scope ensures exists c :: c in candidates && c.volumeId == v {
      var i :| 0 <= i < |volumes| && volumes[i] == v;
      assert candidates[i] in candidates;
    }
    forall i, j | 0 <= i < j < |candidates|
      ensures candidates[i].volumeId != candidates[j].volumeId && candidates[i].snapshotId != candidates[j].snapshotId
    {
      assert volumes[i] != volumes[j] && snapshots[i] != snapshots[j];
    }
  }

  // ---------------------------------------------------------------- the program

  function FirstIndex(metadata: seq<VolumeMetadata>, v: string): nat {
    if metadata == [] || metadata[0].volumeId == v then 0 else 1 + FirstIndex(metadata[1..], v)
  }

  lemma {:induction false} FirstIndexExtends(metadata: seq<VolumeMetadata>, item: VolumeMetadata, v: string)
    ensures FirstIndex(metadata, v) < |metadata| ==> FirstIndex(metadata + [item], v) == FirstIndex(metadata, v)
    ensures FirstIndex(metadata, v) <= |metadata|
    ensures FirstIndex(metadata, v) == |metadata| <==> v !in VolumesOf(metadata)
    ensures v == item.volumeId && v !in VolumesOf(metadata) ==> FirstIndex(metadata + [item], v) == |metadata|
  {
    if metadata != [] {
      assert (metadata + [item])[1..] == metadata[1..] + [item];
      assert metadata == [metadata[0]] + metadata[1..];
      FirstIndexExtends(metadata[1..], item, v);
    }
  }

  function VolumesOf(metadata: seq<VolumeMetadata>): set<string> {
    set item | item in metadata :: item.volumeId
  }

  // The item is in the list, and no later one is of its volume.
  ghost predicate LastOfVolume(metadata: seq<VolumeMetadata>, item: VolumeMetadata) {
    exists i :: 0 <= i < |metadata| && metadata[i] == item && forall j :: i < j < |metadata| ==>
        metadata[j].volumeId != item.volumeId
  }

  lemma LastExtends(metadata: seq<VolumeMetadata>, item: VolumeMetadata, last: VolumeMetadata)
    ensures LastOfVolume(metadata + [item], item)
    ensures LastOfVolume(metadata, last) && last.volumeId != item.volumeId ==> LastOfVolume(metadata + [item], last)
  {
    var all := metadata + [item];
    assert all[|metadata|] == item;
    if LastOfVolume(metadata, last) && last.volumeId != item.volumeId {
      var i :| 0 <= i < |metadata| && metadata[i] == last && forall j :: i < j < |metadata| ==>
          metadata[j].volumeId != last.volumeId;
      assert all[i] == last && forall j :: i < j < |all| ==> all[j].volumeId != last.volumeId;
    }
  }

  // First appearances come in the order of the keys.
  ghost predicate InOrder(metadata: seq<VolumeMetadata>, order: seq<string>) {
    forall i, j :: 0 <= i < j < |order| ==> FirstIndex(metadata, order[i]) < FirstIndex(metadata, order[j])
  }

  lemma InOrderExtends(metadata: seq<VolumeMetadata>, item: VolumeMetadata, order: seq<string>)
    requires InOrder(metadata, order) && Elements(order) == VolumesOf(metadata)
    ensures InOrder(metadata + [item], order)
    ensures item.volumeId !in VolumesOf(metadata) ==> InOrder(metadata + [item], order + [item.volumeId])
  {
    FirstIndexExtends(metadata, item, item.volumeId);
    forall i | 0 <= i < |order|
      ensures FirstIndex(metadata + [item], order[i]) == FirstIndex(metadata, order[i]) < |metadata|
    {
      assert order[i] in Elements(order);
      FirstIndexExtends(metadata, item, order[i]);
    }
  }

  // A dictionary by volume id: its keys in order of first appearance, and the last item of each.
  method ByVolume(metadata: seq<VolumeMetadata>) returns (order: seq<string>, expected: map<string, VolumeMetadata>)
    ensures Elements(order) == expected.Keys == VolumesOf(metadata)
    ensures Distinct(order) && InOrder(metadata, order)
    ensures forall v :: v in expected ==> LastOfVolume(metadata, expected[v]) && expected[v].volumeId == v
  {
    order, expected := [], map[];
    for i := 0 to |metadata|
      invariant Elements(order) == expected.Keys == VolumesOf(metadata[..i])
      invariant Distinct(order) && InOrder(metadata[..i], order)
      invariant forall v :: v in expected ==> LastOfVolume(metadata[..i], expected[v]) && expected[v].volumeId == v
    {
      var item := metadata[i];
      assert metadata[..i + 1] == metadata[..i] + [item];
      assert item.volumeId in order <==> item.volumeId in expected by {
        assert item.volumeId in order <==> item.volumeId in Elements(order);
      }
      InOrderExtends(metadata[..i], item, order);
      forall v | v in expected ensures v != item.volumeId ==> LastOfVolume(metadata[..i + 1], expected[v]) {
        LastExtends(metadata[..i], item, expected[v]);
      }
      LastExtends(metadata[..i], item, item);
      if item.volumeId !in expected {
        order := order + [item.volumeId];
      }
      expected := expected[item.volumeId := item];
    }
    assert metadata[..|metadata|] == metadata;
  }

  method ByCandidate(candidates: seq<Described>) returns (byVolume: map<string, Described>)
    ensures forall c :: c in candidates ==> c.volumeId in byVolume
    ensures forall v :: v in byVolume ==> byVolume[v] in candidates && byVolume[v].volumeId == v
  {
    byVolume := map[];
    for i := 0 to |candidates|
      invariant forall j :: 0 <= j < i ==> candidates[j].volumeId in byVolume
      invariant forall v :: v in byVolume ==> byVolume[v] in candidates && byVolume[v].volumeId == v
    {
      byVolume := byVolume[candidates[i].volumeId := candidates[i]];
    }
  }

  function State(d: Described): string {
    if d.state == "" then "unknown" else d.state
  }

  function AsResource(d: Described, v: VolumeMetadata): Resource {
    Resource(d.snapshotId, v.volumeId, State(d), v.sizeGib, Filled(v.volumeType), v.iops, v.throughput, v.encrypted,
        Filled(v.kmsKeyId), Filled(v.availabilityZone), Filled(v.deviceName), v.rootDevice)
  }

  // The text recorded is the one given, and an empty text counts as none.
  predicate Keeps(recorded: Option<string>, given: Option<string>) {
    if given.Some? && given.value != "" then recorded == given else recorded.None?
  }

  // The resource records what the provider said of its snapshot and the source of its volume.
  predicate Records(c: Described, v: VolumeMetadata, r: Resource) {
    && c.volumeId == v.volumeId == r.sourceId
    && r.snapshotId == c.snapshotId
    && (if c.state == "" then r.state == "unknown" else r.state == c.state)
    && r.sizeGib == v.sizeGib && r.iops == v.iops && r.throughput == v.throughput && r.encrypted == v.encrypted
    && Keeps(r.volumeType, v.volumeType) && Keeps(r.kmsKeyId, v.kmsKeyId)
    && Keeps(r.location, v.availabilityZone) && Keeps(r.deviceName, v.deviceName) && r.rootDevice == v.rootDevice
  }

  // The resource is made of what the provider and the source said of one volume.
  ghost predicate MadeOf(described: seq<Described>, v: VolumeMetadata, r: Resource) {
    exists c :: c in described && c.volumeId != "" && c.snapshotId != "" && Records(c, v, r)
  }

  // Every resource is made of the last item of its volume.
  ghost predicate AllMade(described: seq<Described>, metadata: seq<VolumeMetadata>, resources: seq<Resource>) {
    forall r :: r in resources ==> exists v :: LastOfVolume(metadata, v) && MadeOf(described, v, r)
  }

  // Each resource is another volume's, and no two name one snapshot.
  ghost predicate Unshared(resources: seq<Resource>) {
    forall i, j :: 0 <= i < j < |resources| ==>
      resources[i].sourceId != resources[j].sourceId && resources[i].snapshotId != resources[j].snapshotId
  }

  ghost predicate MadeInOrder(candidates: seq<Described>, order: seq<string>, expected: map<string, VolumeMetadata>,
                              resources: seq<Resource>)
  {
    && |resources| == |order|
    && (forall i :: 0 <= i < |order| ==> order[i] in expected && MadeOf(candidates, expected[order[i]], resources[i]))
  }

  ghost predicate HasCandidate(candidates: seq<Described>, v: string) {
    exists c :: c in candidates && c.volumeId == v
  }

  lemma ScopeHasCandidates(candidates: seq<Described>, scope: set<string>)
    requires OneSnapshotPerVolume(candidates, scope)
    ensures forall v :: v in scope ==> HasCandidate(candidates, v)
  {
  }

  method MakeResource(candidates: seq<Described>, byVolume: map<string, Described>, v: VolumeMetadata)
    returns (r: Resource)
    requires forall c :: c in candidates ==> c.volumeId in byVolume
    requires forall v :: v in byVolume ==> byVolume[v] in candidates && byVolume[v].volumeId == v
    requires HasCandidate(candidates, v.volumeId) && forall c :: c in candidates ==> Candidate(c)
    ensures MadeOf(candidates, v, r)
  {
    r := AsResource(byVolume[v.volumeId], v);
  }

  method Resources(candidates: seq<Described>, order: seq<string>, expected: map<string, VolumeMetadata>)
    returns (resources: seq<Resource>)
    requires forall v :: v in order ==> v in expected && expected[v].volumeId == v && HasCandidate(candidates, v)
    requires forall c :: c in candidates ==> Candidate(c)
    ensures MadeInOrder(candidates, order, expected, resources)
  {
    var byVolume := ByCandidate(candidates);
    resources := [];
    for i := 0 to |order|
      invariant |resources| == i
      invariant forall j :: 0 <= j < i ==> order[j] in expected && MadeOf(candidates, expected[order[j]], resources[j])
    {
      var r := MakeResource(candidates, byVolume, expected[order[i]]);
      resources := resources + [r];
    }
  }

  lemma MadeIsUnshared(candidates: seq<Described>, order: seq<string>, expected: map<string, VolumeMetadata>,
                       resources: seq<Resource>)
    requires OneSnapshotPerVolume(candidates, expected.Keys) && Distinct(order)
               && MadeInOrder(candidates, order, expected, resources)
    requires forall v :: v in expected ==> expected[v].volumeId == v
    ensures Unshared(resources) && forall i :: 0 <= i < |order| ==> resources[i].sourceId == order[i]
  {
    forall i, j | 0 <= i < j < |resources|
      ensures resources[i].sourceId != resources[j].sourceId && resources[i].snapshotId != resources[j].snapshotId
    {
      OtherVolumeOtherSnapshot(candidates, expected.Keys, expected[order[i]], expected[order[j]], resources[i],
          resources[j]);
    }
  }

  lemma OtherVolumeOtherSnapshot(candidates: seq<Described>, scope: set<string>, v: VolumeMetadata, w: VolumeMetadata,
                                 r: Resource, q: Resource)
    requires OneSnapshotPerVolume(candidates, scope) && MadeOf(candidates, v, r) && MadeOf(candidates, w, q)
    requires v.volumeId != w.volumeId
    ensures r.sourceId != q.sourceId && r.snapshotId != q.snapshotId
  {
    var c :| c in candidates && c.volumeId != "" && c.snapshotId != "" && Records(c, v, r);
    var d :| d in candidates && d.volumeId != "" && d.snapshotId != "" && Records(d, w, q);
    var i :| 0 <= i < |candidates| && candidates[i] == c;
    var j :| 0 <= j < |candidates| && candidates[j] == d;
    assert i < j || j < i;
  }

  lemma MadeOfLast(described: seq<Described>, candidates: seq<Described>, metadata: seq<VolumeMetadata>,
                   order: seq<string>, expected: map<string, VolumeMetadata>, resources: seq<Resource>)
    requires MadeInOrder(candidates, order, expected, resources)
    requires forall v :: v in expected ==> LastOfVolume(metadata, expected[v])
    requires forall c :: c in candidates ==> c in described
    ensures AllMade(described, metadata, resources)
  {
    forall q | q in resources ensures exists v :: LastOfVolume(metadata, v) && MadeOf(described, v, q) {
      var i :| 0 <= i < |resources| && resources[i] == q;
      assert LastOfVolume(metadata, expected[order[i]]) && MadeOf(candidates, expected[order[i]], q);
    }
  }

  // A snapshot set is recorded exactly when the provider returned one snapshot per volume in scope. It then lists each
  // volume once, in the order of its first appearance, with what is known of it, no snapshot twice, and is complete
  // exactly when every snapshot is.
  method RecordSnapshot(described: seq<Described>, metadata: seq<VolumeMetadata>) returns (r: Option<ProviderSnapshot>)
    ensures r.Some? <==> OneEach(described, VolumesOf(metadata))
    ensures r.Some? ==> Unshared(r.value.resources) && AllMade(described, metadata, r.value.resources)
    ensures r.Some? ==> InOrder(metadata, SourceIds(r.value.resources))
    ensures r.Some? ==> (set q | q in r.value.resources :: q.sourceId) == VolumesOf(metadata)
    ensures r.Some? ==>
              (r.value.status == "complete" <==> forall q :: q in r.value.resources ==> q.state == "completed")
    ensures r.Some? ==> (r.value.status == "failed" <==> exists q :: q in r.value.resources && q.state == "error")
    ensures r.Some? ==> r.value.status in {"complete", "failed", "pending"}
  {
    var order, expected := ByVolume(metadata);
    var candidates := Candidates(described);
    CountsDecide(candidates, expected.Keys);
    CandidatesDecide(described, expected.Keys);
    CandidatesMean(described);
    if |candidates| != |expected.Keys|
       || |Elements(VolumeIds(candidates))| != |candidates|
       || |Elements(SnapshotIds(candidates))| != |candidates|
       || Elements(VolumeIds(candidates)) != expected.Keys
    {
      return None;
    }
    var resources := AllResources(described, metadata, candidates, order, expected);
    var status := StatusOf(resources);
    return Some(ProviderSnapshot(resources, status));
  }

  // The resources, once the counts are as they should be.
  method AllResources(ghost described: seq<Described>, ghost metadata: seq<VolumeMetadata>, candidates: seq<Described>,
                      order: seq<string>, expected: map<string, VolumeMetadata>)
    returns (resources: seq<Resource>)
    requires forall c :: c in candidates ==> c in described && Candidate(c)
    requires OneSnapshotPerVolume(candidates, expected.Keys)
    requires Elements(order) == expected.Keys && Distinct(order) && InOrder(metadata, order)
    requires forall v :: v in expected ==> LastOfVolume(metadata, expected[v]) && expected[v].volumeId == v
    ensures Unshared(resources) && AllMade(described, metadata, resources)
    ensures InOrder(metadata, SourceIds(resources))
    ensures (set q | q in resources :: q.sourceId) == expected.Keys
  {
    ScopeHasCandidates(candidates, expected.Keys);
    assert forall v :: v in order ==> v in Elements(order);
    resources := Resources(candidates, order, expected);
    MadeIsUnshared(candidates, order, expected, resources);
    MadeOfLast(described, candidates, metadata, order, expected, resources);
    SourcesAreOrder(resources, order);
  }

  method StatusOf(resources: seq<Resource>) returns (status: string)
    ensures status == "complete" <==> forall q :: q in resources ==> q.state == "completed"
    ensures status == "failed" <==> exists q :: q in resources && q.state == "error"
    ensures status in {"complete", "failed", "pending"}
  {
    var complete := forall q :: q in resources ==> q.state == "completed";
    var failed := exists q :: q in resources && q.state == "error";
    status := if complete then "complete" else if failed then "failed" else "pending";
  }

  function SourceIds(resources: seq<Resource>): seq<string> {
    seq(|resources|, i requires 0 <= i < |resources| => resources[i].sourceId)
  }

  lemma SourcesAreOrder(resources: seq<Resource>, order: seq<string>)
    requires |resources| == |order| && forall i :: 0 <= i < |order| ==> resources[i].sourceId == order[i]
    ensures SourceIds(resources) == order
    ensures (set q | q in resources :: q.sourceId) == Elements(order)
  {
    forall v | v in Elements(order) ensures exists q :: q in resources && q.sourceId == v {
      var i :| 0 <= i < |order| && order[i] == v;
      assert resources[i] in resources;
    }
  }

  // A set recorded this way restores to as many volumes as it has resources.
  lemma RestoresToDistinctVolumes(volumes: map<VolumeId, Volume>, granted: Grants, zone: string, m: Manifest,
                                  ids: seq<VolumeId>)
    requires Unshared(m.resources) && OneVolumePerToken(volumes, granted) && Assigned(granted, zone, m, ids)
    ensures forall i, j :: 0 <= i < j < |ids| ==> ids[i] != ids[j]
  {
    forall i, j | 0 <= i < j < |ids| ensures ids[i] != ids[j] {
      SharedVolumeIsSharedSnapshot(volumes, granted, zone, m, ids, i, j);
    }
  }
}
