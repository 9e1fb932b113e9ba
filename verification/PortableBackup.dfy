/**
 Portable backups: payload objects are overwritten under one id, so the completion marker is removed before any byte
 changes and written again only after the payload has been verified.  A permanent abandonment fence, which another
 actor may install at any moment, stops every publication.

 One actor publishes and deletes a backup id at a time; its calls may fail or be cut off anywhere.  Listings may be
 stale unless said otherwise.
 */
module PortableBackup {
  import opened Option
  import opened Text
  import opened ObjectStore

  const MARKER := "manifest.json"
  const FENCE := "abandoned.json"
  const DATABASE := "db.dump"
  const FILESTORE := "filestore.tar"

  // The digests a completion manifest names for its two required artifacts.
  datatype Expected = Expected(database: string, filestore: string)

  datatype File = File(path: string, body: Bytes)

  // Rejected: the failure was met before the marker was written, and the marker has been removed.
  datatype Reason = Provider | Integrity | Abandoned

  datatype Failure = Fenced | Failed(why: Reason) | Rejected(why: Reason) | CleanupFailed

  datatype Outcome<+T> = Ok(value: T) | Err(failure: Failure)

  class PortableBackups {
    const bucket: Bucket
    const prefix: string
    const sha: Bytes -> string
    // The manifest checks applied before publication and when a backup is read.
    const publishable: Bytes -> Option<Expected>
    const readable: Bytes -> Option<Expected>

    constructor (bucket: Bucket, prefix: string, sha: Bytes -> string,
                 publishable: Bytes -> Option<Expected>, readable: Bytes -> Option<Expected>)
      ensures this.bucket == bucket && this.prefix == prefix && this.sha == sha
      ensures this.publishable == publishable && this.readable == readable
    {
      this.bucket, this.prefix, this.sha := bucket, prefix, sha;
      this.publishable, this.readable := publishable, readable;
    }

    function KeyOf(path: string): Key {
      prefix + path
    }

    lemma DistinctKeys(p: string, q: string)
      ensures KeyOf(p) == KeyOf(q) ==> p == q
    {
      assert KeyOf(p)[|prefix|..] == p && KeyOf(q)[|prefix|..] == q;
    }

    predicate Holds(s: Objects, path: string, digest: string) {
      KeyOf(path) in s && sha(s[KeyOf(path)].body) == digest
    }

    predicate Payload(s: Objects, e: Expected) {
      Holds(s, DATABASE, e.database) && Holds(s, FILESTORE, e.filestore)
    }

    // Recorded digests are those of the stored bytes, and a stored marker names payload that is stored.
    predicate Safe(s: Objects) {
      && (forall k :: k in s && HasPrefix(k, prefix) && k != KeyOf(FENCE) && s[k].meta.Some? ==>
          s[k].meta.value == sha(s[k].body))
      && (KeyOf(MARKER) in s ==>
            publishable(s[KeyOf(MARKER)].body).Some? && Payload(s, publishable(s[KeyOf(MARKER)].body).value))
    }

    // Safe held in every state, and no step ever removed an installed fence.
    ghost predicate Sound(trace: seq<Objects>) {
      && (forall i :: 0 <= i < |trace| ==> Safe(trace[i]))
      && (forall i, j :: 0 <= i <= j < |trace| && KeyOf(FENCE) in trace[i] ==> KeyOf(FENCE) in trace[j])
    }

    ghost predicate History()
      reads bucket
    {
      && bucket.shared == {KeyOf(FENCE)}
      && bucket.trace != []
      && bucket.trace[|bucket.trace| - 1] == bucket.objects
      && Sound(bucket.trace)
    }

    lemma SoundAppend(trace: seq<Objects>, next: Objects)
      requires trace != [] && Sound(trace) && Safe(next)
      requires KeyOf(FENCE) in trace[|trace| - 1] ==> KeyOf(FENCE) in next
      ensures Sound(trace + [next])
    {
    }

    // Only the fence can have appeared.
    lemma SafeGrows(s: Objects, t: Objects)
      requires Safe(s) && OnlyAt(s, t, None, {KeyOf(FENCE)})
      ensures Safe(t)
    {
      KeysDistinct();
    }

    // The marker key and the fence are not payload.
    lemma PayloadKept(s: Objects, t: Objects, e: Expected)
      requires OnlyAt(s, t, Some(KeyOf(MARKER)), {KeyOf(FENCE)})
      ensures Payload(s, e) <==> Payload(t, e)
    {
      KeysDistinct();
    }

    lemma SoundGrows(before: seq<Objects>, after: seq<Objects>)
      requires before != [] && Sound(before) && before <= after
      requires Growing(Since(before[|before| - 1], after, |before|), {KeyOf(FENCE)})
      ensures Sound(after)
    {
      var last := |before| - 1;
      var seen := Since(before[last], after, |before|);
      assert forall i :: last <= i < |after| ==> after[i] == seen[i - last];
      forall i | last <= i < |after| ensures Safe(after[i]) {
        assert OnlyAt(seen[0], seen[i - last], None, {KeyOf(FENCE)});
        SafeGrows(before[last], after[i]);
      }
      forall i, j | 0 <= i <= j < |after| && KeyOf(FENCE) in after[i] ensures KeyOf(FENCE) in after[j] {
        if j > last {
          assert KeyOf(FENCE) in before[last] || i > last;
          var k := if i < last then 0 else i - last;
          assert OnlyAt(seen[k], seen[j - last], None, {KeyOf(FENCE)});
        }
      }
    }

    ghost predicate Fenced()
      reads bucket
    {
      KeyOf(FENCE) in bucket.objects
    }

    // No write was made; at most the fence has appeared.
    twostate predicate Untouched()
      reads bucket
    {
      && old(bucket.trace) <= bucket.trace
      && OnlyAt(old(bucket.objects), bucket.objects, None, {KeyOf(FENCE)})
      && bucket.writes == old(bucket.writes)
      && bucket.faults >= old(bucket.faults)
    }

    // The four keys that matter are distinct.
    lemma KeysDistinct()
      ensures KeyOf(MARKER) != KeyOf(FENCE) && KeyOf(DATABASE) != KeyOf(FENCE) && KeyOf(FILESTORE) != KeyOf(FENCE)
      ensures KeyOf(MARKER) != KeyOf(DATABASE) && KeyOf(MARKER) != KeyOf(FILESTORE)
    {
      DistinctKeys(MARKER, FENCE);
      DistinctKeys(DATABASE, FENCE);
      DistinctKeys(FILESTORE, FENCE);
      DistinctKeys(MARKER, DATABASE);
      DistinctKeys(MARKER, FILESTORE);
    }

    // ------------------------------------------------------------ probes and verified reads

    method Head(key: Key) returns (r: Reply<Info>)
      requires History()
      modifies bucket
      ensures History() && Untouched()
      ensures r.Returned? ==>
                key in bucket.objects && r.value == InfoOf(bucket.objects[key]) && bucket.faults == old(bucket.faults)
      ensures r.Missing? ==> key !in bucket.objects && bucket.faults == old(bucket.faults)
      ensures r.Raised? ==> bucket.faults > old(bucket.faults)
    {
      r := bucket.Head(key);
      SafeGrows(old(bucket.objects), bucket.objects);
      SoundAppend(old(bucket.trace), bucket.objects);
    }

    method Get(key: Key) returns (r: Reply<Bytes>)
      requires History()
      modifies bucket
      ensures History() && Untouched()
      ensures r.Returned? ==>
                key in bucket.objects && r.value == bucket.objects[key].body && bucket.faults == old(bucket.faults)
      ensures r.Missing? ==> key !in bucket.objects && bucket.faults == old(bucket.faults)
      ensures r.Raised? ==> bucket.faults > old(bucket.faults)
    {
      r := bucket.Get(key);
      SafeGrows(old(bucket.objects), bucket.objects);
      SoundAppend(old(bucket.trace), bucket.objects);
    }

    method Probe() returns (r: Reply<bool>)
      requires History()
      modifies bucket
      ensures History() && Untouched() && r != Missing
      ensures r.Returned? ==> r.value == Fenced() && bucket.faults == old(bucket.faults)
      ensures r.Raised? ==> bucket.faults > old(bucket.faults)
    {
      var head := Head(KeyOf(FENCE));
      r := match head case Returned(_) => Returned(true) case Missing => Returned(false) case Raised => Raised;
    }

    // A probe that finds no fence: nothing at all has changed since it was called.
    method AssertNotAbandoned() returns (r: Outcome<()>)
      requires History()
      modifies bucket
      ensures History() && Untouched()
      ensures r.Ok? ==> !Fenced() && bucket.objects == old(bucket.objects) && bucket.faults == old(bucket.faults)
      ensures r.Err? ==> r.failure.Fenced? || r.failure.Failed?
      ensures r.Err? ==> bucket.faults > old(bucket.faults) || Fenced()
    {
      var probe := Probe();
      if probe.Raised? {
        return Err(Failed(Provider));
      }
      if probe.value {
        return Err(Failure.Fenced);
      }
      return Ok(());
    }

    predicate Acceptable(o: Object, expected: Option<string>, size: Option<nat>, allowMissing: bool) {
      && (o.meta.None? ==> allowMissing)
      && (expected.Some? && o.meta.Some? ==> o.meta == expected)
      && (size.Some? ==> |o.body| == size.value)
    }

    // HEAD; recorded digest and size must be the expected ones.
    method VerifyObject(key: Key, expected: Option<string>, size: Option<nat>, allowMissing: bool)
      returns (r: Outcome<Info>)
      requires History()
      modifies bucket
      ensures History() && Untouched()
      ensures r.Ok? ==> key in bucket.objects && r.value == InfoOf(bucket.objects[key])
                        && Acceptable(bucket.objects[key], expected, size, allowMissing)
      ensures r.Err? ==> r.failure.Failed?
      ensures r.Err? ==> bucket.faults > old(bucket.faults)
                         || key !in bucket.objects || !Acceptable(bucket.objects[key], expected, size, allowMissing)
    {
      var head := Head(key);
      if !head.Returned? {
        return Err(Failed(Provider));
      }
      var info := head.value;
      if info.meta.None? && !allowMissing {
        return Err(Failed(Integrity));
      }
      if expected.Some? && info.meta.Some? && info.meta != expected {
        return Err(Failed(Integrity));
      }
      if size.Some? && info.size != size.value {
        return Err(Failed(Integrity));
      }
      return Ok(info);
    }

    // The bytes have the expected digest, or failing that the recorded one, or neither is there to compare.
    predicate Readable(o: Object, expected: Option<string>) {
      sha(o.body) == expected.GetOr(o.meta.GetOr(sha(o.body)))
    }

    // HEAD and GET; the bytes must have the expected digest, or failing that the recorded one.
    method ReadVerified(key: Key, expected: Option<string>) returns (r: Outcome<Bytes>)
      requires History()
      modifies bucket
      ensures History() && Untouched()
      ensures r.Ok? ==> key in bucket.objects && bucket.objects[key].body == r.value
                        && (expected.Some? ==> sha(r.value) == expected.value)
      ensures r.Err? ==> r.failure.Failed?
      ensures r.Err? ==> bucket.faults > old(bucket.faults)
                         || key !in bucket.objects || !Acceptable(bucket.objects[key], expected, None, true)
                         || !Readable(bucket.objects[key], expected)
    {
      var info := VerifyObject(key, expected, None, true);
      if info.Err? {
        return Err(info.failure);
      }
      var body := Get(key);
      if !body.Returned? {
        return Err(Failed(Provider));
      }
      var digest := if expected.Some? then expected else info.value.meta;
      if |body.value| != info.value.size || (digest.Some? && sha(body.value) != digest.value) {
        return Err(Failed(Integrity));
      }
      return Ok(body.value);
    }

    // ------------------------------------------------------------ marker and payload writes

    // The marker is gone, or the one that was stored still is.
    predicate MarkerGoneOrKept(s: Objects, t: Objects) {
      KeyOf(MARKER) in t ==> KeyOf(MARKER) in s && t[KeyOf(MARKER)] == s[KeyOf(MARKER)]
    }

    method DeleteMarker() returns (r: Reply<()>)
      requires History()
      modifies bucket
      ensures History() && old(bucket.trace) <= bucket.trace && r != Missing
      ensures OnlyAt(old(bucket.objects), bucket.objects, Some(KeyOf(MARKER)), {KeyOf(FENCE)})
      ensures r.Returned? ==> KeyOf(MARKER) !in bucket.objects && bucket.faults == old(bucket.faults)
      ensures r.Raised? ==> bucket.faults > old(bucket.faults)
      ensures MarkerGoneOrKept(old(bucket.objects), bucket.objects)
    {
      KeysDistinct();
      r := bucket.Delete(KeyOf(MARKER));
      SoundAppend(old(bucket.trace), bucket.objects);
    }

    // LIST for the record, then delete unconditionally: a stale listing must not leave the marker behind.
    method RemoveMarker() returns (r: Outcome<bool>)
      requires History()
      modifies bucket
      ensures History() && old(bucket.trace) <= bucket.trace && bucket.faults >= old(bucket.faults)
      ensures OnlyAt(old(bucket.objects), bucket.objects, Some(KeyOf(MARKER)), {KeyOf(FENCE)})
      ensures r.Ok? ==> KeyOf(MARKER) !in bucket.objects
      ensures r.Err? ==> r.failure.Failed? && bucket.faults > old(bucket.faults)
    {
      var listed := List();
      if listed.Raised? {
        return Err(Failed(Provider));
      }
      var deleted := DeleteMarker();
      if deleted.Raised? {
        return Err(Failed(Provider));
      }
      return Ok(KeyOf(MARKER) in listed.value);
    }

    method List() returns (r: Reply<seq<Key>>)
      requires History()
      modifies bucket
      ensures History() && Untouched() && r != Missing
      ensures r.Raised? ==> bucket.faults > old(bucket.faults)
      ensures r.Returned? ==> bucket.faults == old(bucket.faults) && Ascending(r.value)
      ensures r.Returned? ==> forall k :: k in r.value ==> HasPrefix(k, prefix) && k in bucket.objects
      ensures r.Returned? && !bucket.stale ==> forall k :: k in old(bucket.objects) && HasPrefix(k, prefix) ==>
                k in r.value
    {
      r := ListObjects(bucket, prefix);
      SoundGrows(old(bucket.trace), bucket.trace);
    }

    // A write of the marker needs its payload in place; a write of payload needs the marker gone.
    ghost predicate MayWrite(s: Objects, path: string, body: Bytes) {
      && (path == MARKER ==> publishable(body).Some? && Payload(s, publishable(body).value))
      && (path != MARKER && path != FENCE ==> KeyOf(MARKER) !in s)
    }

    lemma SafeWrite(s: Objects, t: Objects, path: string, body: Bytes)
      requires Safe(s) && MayWrite(s, path, body) && OnlyAt(s, t, Some(KeyOf(path)), {KeyOf(FENCE)})
      requires KeyOf(path) in t ==> t[KeyOf(path)] == Object(body, Some(sha(body)))
                                    || (KeyOf(path) in s && t[KeyOf(path)] == s[KeyOf(path)]) || path == FENCE
      ensures Safe(t)
    {
      KeysDistinct();
      DistinctKeys(path, MARKER);
      DistinctKeys(path, FENCE);
    }

    method PutObject(path: string, body: Bytes) returns (r: Reply<()>)
      requires History() && MayWrite(bucket.objects, path, body)
      modifies bucket
      ensures History() && old(bucket.trace) <= bucket.trace && r != Missing
      ensures OnlyAt(old(bucket.objects), bucket.objects, Some(KeyOf(path)), {KeyOf(FENCE)})
      ensures r.Returned? ==>
                KeyOf(path) in bucket.objects && bucket.objects[KeyOf(path)] == Object(body, Some(sha(body)))
      ensures r.Returned? ==> bucket.faults == old(bucket.faults)
      ensures r.Raised? ==> bucket.faults > old(bucket.faults)
    {
      DistinctKeys(path, FENCE);
      r := bucket.Put(KeyOf(path), Object(body, Some(sha(body))));
      SafeWrite(old(bucket.objects), bucket.objects, path, body);
      SoundAppend(old(bucket.trace), bucket.objects);
    }

    // PUT with the digest of the bytes as metadata, then HEAD.
    method UploadObject(path: string, body: Bytes) returns (r: Outcome<()>)
      requires History() && MayWrite(bucket.objects, path, body)
      modifies bucket
      ensures History() && old(bucket.trace) <= bucket.trace && bucket.faults >= old(bucket.faults)
      ensures OnlyAt(old(bucket.objects), bucket.objects, Some(KeyOf(path)), {KeyOf(FENCE)})
      ensures r.Ok? ==> KeyOf(path) in bucket.objects && bucket.objects[KeyOf(path)] == Object(body, Some(sha(body)))
      ensures r.Err? ==> r.failure.Failed? && bucket.faults > old(bucket.faults)
    {
      var put := PutObject(path, body);
      if put.Raised? {
        return Err(Failed(Provider));
      }
      var verified := VerifyObject(KeyOf(path), Some(sha(body)), Some(|body|), false);
      if verified.Err? {
        return Err(verified.failure);
      }
      return Ok(());
    }

    predicate DistinctPaths(files: seq<File>) {
      forall i, j :: 0 <= i < j < |files| ==> files[i].path != files[j].path
    }

    predicate Stored(s: Objects, f: File) {
      KeyOf(f.path) in s && s[KeyOf(f.path)] == Object(f.body, Some(sha(f.body)))
    }

    // Only the files uploaded, the marker and the fence may differ.
    ghost predicate Spares(s: Objects, t: Objects, files: seq<File>) {
      forall k :: k != KeyOf(MARKER) && k != KeyOf(FENCE) && (forall f :: f in files ==> k != prefix + f.path) ==>
        (k in s <==> k in t) && (k in s ==> t[k] == s[k])
    }

    lemma SparesOneMore(s: Objects, t: Objects, u: Objects, files: seq<File>, key: Option<Key>)
      requires Spares(s, t, files) && OnlyAt(t, u, key, {KeyOf(FENCE)})
      requires key.Some? ==> key.value == KeyOf(MARKER) || exists f :: f in files && key.value == KeyOf(f.path)
      ensures Spares(s, u, files)
    {
      forall k | k != KeyOf(MARKER) && k != KeyOf(FENCE) && (forall f :: f in files ==> k != prefix + f.path)
        ensures (k in s <==> k in u) && (k in s ==> u[k] == s[k])
      {
        assert key != Some(k);
      }
    }

    // Refuse an abandoned id, remove the marker, then overwrite the payload.
    method UploadPayload(files: seq<File>) returns (r: Outcome<()>)
      requires History() && DistinctPaths(files)
      modifies bucket
      ensures History() && old(bucket.trace) <= bucket.trace && bucket.faults >= old(bucket.faults)
      ensures old(Fenced()) ==> r.Err? && Untouched()
      ensures Spares(old(bucket.objects), bucket.objects, files)
      ensures r.Ok? ==> KeyOf(MARKER) !in bucket.objects
      ensures r.Ok? ==> FirstStored(bucket.objects, files, |files|)
      ensures r.Err? ==> r.failure.Fenced? || r.failure.Failed?
      ensures r.Err? ==> bucket.faults > old(bucket.faults) || Fenced()
    {
      ghost var start := bucket.objects;
      var probe := AssertNotAbandoned();
      SparesOneMore(start, start, bucket.objects, files, None);
      if probe.Err? {
        return Err(probe.failure);
      }
      ghost var probed := bucket.objects;
      var removed := RemoveMarker();
      SparesOneMore(start, probed, bucket.objects, files, Some(KeyOf(MARKER)));
      if removed.Err? {
        return Err(removed.failure);
      }
      ghost var cleared := bucket.objects;
      r := OverwritePayload(files);
      SparesTransitive(start, cleared, bucket.objects, files);
    }

    lemma SparesTransitive(s: Objects, t: Objects, u: Objects, files: seq<File>)
      requires Spares(s, t, files) && Spares(t, u, files)
      ensures Spares(s, u, files)
    {
    }

    // The first n files are stored, the marker and the fence aside.
    predicate FirstStored(s: Objects, files: seq<File>, n: nat)
      requires n <= |files|
    {
      forall i :: 0 <= i < n && files[i].path != MARKER && files[i].path != FENCE ==> Stored(s, files[i])
    }

    lemma StoredNext(s: Objects, t: Objects, files: seq<File>, n: nat)
      requires n < |files| && DistinctPaths(files) && FirstStored(s, files, n)
      requires OnlyAt(s, t, Some(KeyOf(files[n].path)), {KeyOf(FENCE)}) && Stored(t, files[n])
      ensures FirstStored(t, files, n + 1)
    {
      forall i | 0 <= i < n && files[i].path != MARKER && files[i].path != FENCE ensures Stored(t, files[i]) {
        DistinctKeys(files[i].path, files[n].path);
        DistinctKeys(files[i].path, FENCE);
        assert Stored(s, files[i]);
      }
    }

    method OverwritePayload(files: seq<File>) returns (r: Outcome<()>)
      requires History() && DistinctPaths(files) && KeyOf(MARKER) !in bucket.objects
      modifies bucket
      ensures History() && old(bucket.trace) <= bucket.trace && bucket.faults >= old(bucket.faults)
      ensures Spares(old(bucket.objects), bucket.objects, files)
      ensures r.Ok? ==> KeyOf(MARKER) !in bucket.objects && FirstStored(bucket.objects, files, |files|)
      ensures r.Err? ==> r.failure.Failed? && bucket.faults > old(bucket.faults)
    {
      for n := 0 to |files|
        invariant History() && old(bucket.trace) <= bucket.trace && bucket.faults >= old(bucket.faults)
        invariant KeyOf(MARKER) !in bucket.objects
        invariant Spares(old(bucket.objects), bucket.objects, files)
        invariant FirstStored(bucket.objects, files, n)
      {
        if files[n].path != MARKER {
          ghost var before := bucket.objects;
          var uploaded := OverwriteOne(files, n);
          SparesTransitive(old(bucket.objects), before, bucket.objects, files);
          if uploaded.Err? {
            return Err(uploaded.failure);
          }
        }
      }
      return Ok(());
    }

    method OverwriteOne(files: seq<File>, n: nat) returns (r: Outcome<()>)
      requires History() && DistinctPaths(files) && n < |files| && files[n].path != MARKER
      requires KeyOf(MARKER) !in bucket.objects && FirstStored(bucket.objects, files, n)
      modifies bucket
      ensures History() && old(bucket.trace) <= bucket.trace && bucket.faults >= old(bucket.faults)
      ensures KeyOf(MARKER) !in bucket.objects && Spares(old(bucket.objects), bucket.objects, files)
      ensures r.Ok? ==> FirstStored(bucket.objects, files, n + 1)
      ensures r.Err? ==> r.failure.Failed? && bucket.faults > old(bucket.faults)
    {
      KeysDistinct();
      DistinctKeys(files[n].path, MARKER);
      r := UploadObject(files[n].path, files[n].body);
      assert files[n] in files;
      SparesOneMore(old(bucket.objects), old(bucket.objects), bucket.objects, files, Some(KeyOf(files[n].path)));
      if r.Ok? {
        StoredNext(old(bucket.objects), bucket.objects, files, n);
      }
    }

    // ------------------------------------------------------------ publication

    // Local validation: the manifest is publishable and, when the tree is given, its artifacts are there.
    function Expectations(manifest: Bytes, files: Option<seq<File>>): Option<Expected> {
      match publishable(manifest)
      case None => None
      case Some(e) =>
        if files.None? || (HasFile(files.value, DATABASE, e.database) && HasFile(files.value, FILESTORE, e.filestore))
        then Some(e) else None
    }

    predicate HasFile(files: seq<File>, path: string, digest: string) {
      exists i :: 0 <= i < |files| && files[i].path == path && files[i].body != [] && sha(files[i].body) == digest
    }

    // Every required artifact is stored with its digest; objects without a recorded digest are read in full.
    method VerifyArtifact(path: string, digest: string) returns (r: Outcome<()>)
      requires History() && (path == DATABASE || path == FILESTORE)
      modifies bucket
      ensures History() && Untouched()
      ensures r.Ok? ==> Holds(bucket.objects, path, digest)
      ensures r.Err? ==> r.failure.Failed?
      ensures r.Err? ==> bucket.faults > old(bucket.faults) || !Holds(bucket.objects, path, digest)
    {
      var head := Head(KeyOf(path));
      if !head.Returned? {
        return Err(Failed(Provider));
      }
      if head.value.meta.None? {
        var read := ReadVerified(KeyOf(path), Some(digest));
        if read.Err? {
          return Err(read.failure);
        }
      } else {
        var verified := VerifyObject(KeyOf(path), Some(digest), None, false);
        if verified.Err? {
          return Err(verified.failure);
        }
      }
      return Ok(());
    }

    method VerifyArtifacts(e: Expected) returns (r: Outcome<()>)
      requires History()
      modifies bucket
      ensures History() && Untouched()
      ensures r.Ok? ==> Payload(bucket.objects, e)
      ensures r.Err? ==> r.failure.Failed?
      ensures r.Err? ==> bucket.faults > old(bucket.faults) || !Payload(old(bucket.objects), e)
    {
      KeysDistinct();
      r := VerifyArtifact(DATABASE, e.database);
      if r.Ok? {
        r := VerifyArtifact(FILESTORE, e.filestore);
      }
    }

    // The checks made before the marker is written: local expectations, remote payload, and a second fence probe.
    method CheckPublication(manifest: Bytes, files: Option<seq<File>>) returns (r: Outcome<()>)
      requires History()
      modifies bucket
      ensures History() && Untouched()
      ensures r.Ok? ==>
                Expectations(manifest, files).Some? && Payload(bucket.objects, Expectations(manifest, files).value)
                        && !Fenced()
      ensures r.Err? ==> r.failure.Failed?
      ensures r.Err? && Expectations(manifest, files).Some?
                && Payload(bucket.objects, Expectations(manifest, files).value) ==>
                bucket.faults > old(bucket.faults) || Fenced()
    {
      var expected := Expectations(manifest, files);
      if expected.None? {
        return Err(Failed(Integrity));
      }
      var verified := VerifyArtifacts(expected.value);
      if verified.Err? {
        return Err(verified.failure);
      }
      var probe := AssertNotAbandoned();
      if probe.Err? {
        return Err(Failed(if probe.failure.Fenced? then Abandoned else Provider));
      }
      return Ok(());
    }

    // Publish the marker.  A rejected manifest is never left advertised: Rejected means the marker is gone, and only a
    // failed clean-up can leave an older, still complete, one behind.
    method UploadManifest(manifest: Bytes, files: Option<seq<File>>) returns (r: Outcome<()>)
      requires History()
      modifies bucket
      ensures History() && old(bucket.trace) <= bucket.trace && bucket.faults >= old(bucket.faults)
      ensures OnlyAt(old(bucket.objects), bucket.objects, Some(KeyOf(MARKER)), {KeyOf(FENCE)})
      ensures old(Fenced()) ==> r.Err? && Untouched()
      ensures r.Ok? ==>
                KeyOf(MARKER) in bucket.objects
                && bucket.objects[KeyOf(MARKER)] == Object(manifest, Some(sha(manifest)))
                        && Expectations(manifest, files).Some?
                            && Payload(bucket.objects, Expectations(manifest, files).value)
      ensures r.Err? && r.failure.Rejected? ==> KeyOf(MARKER) !in bucket.objects
      ensures r.Err? && r.failure.CleanupFailed? ==> MarkerGoneOrKept(old(bucket.objects), bucket.objects)
      ensures r.Err? && Expectations(manifest, files).Some?
                && Payload(bucket.objects, Expectations(manifest, files).value) ==>
                bucket.faults > old(bucket.faults) || Fenced()
    {
      var probe := AssertNotAbandoned();
      if probe.Err? {
        return Err(probe.failure);
      }
      var checked := CheckPublication(manifest, files);
      ghost var before := bucket.objects;
      if checked.Err? {
        var cleaned := DeleteMarker();
        if Expectations(manifest, files).Some? {
          PayloadKept(before, bucket.objects, Expectations(manifest, files).value);
        }
        if cleaned.Raised? {
          return Err(CleanupFailed);
        }
        return Err(Rejected(checked.failure.why));
      }
      r := UploadObject(MARKER, manifest);
      PayloadKept(before, bucket.objects, Expectations(manifest, files).value);
    }

    // Validate locally, replace the payload, publish the manifest last. A tree that is not what the manifest declares
    // changes nothing.
    method UploadBackup(files: seq<File>, manifest: Bytes) returns (r: Outcome<()>)
      requires History() && DistinctPaths(files)
      modifies bucket
      ensures History() && old(bucket.trace) <= bucket.trace
      ensures old(Fenced()) ==> r.Err? && Untouched()
      ensures !Declared(manifest, files) ==> r.Err? && bucket.objects == old(bucket.objects)
      ensures Spares(old(bucket.objects), bucket.objects, files)
      ensures r.Ok? ==> KeyOf(MARKER) in bucket.objects && bucket.objects[KeyOf(MARKER)].body == manifest
      ensures r.Ok? ==> forall i :: 0 <= i < |files| && files[i].path != MARKER && files[i].path != FENCE ==>
                Stored(bucket.objects, files[i])
      ensures r.Err? && Declared(manifest, files) ==> bucket.faults > old(bucket.faults) || Fenced()
    {
      DeclaredIff(manifest, files);
      ghost var start := bucket.objects;
      var expected := Expectations(manifest, Some(files));
      if expected.None? {
        return Err(Failed(Integrity));
      }
      var payload := UploadPayload(files);
      if payload.Err? {
        return Err(payload.failure);
      }
      ghost var uploaded := bucket.objects;
      r := UploadManifest(manifest, Some(files));
      SparesOneMore(start, uploaded, bucket.objects, files, Some(KeyOf(MARKER)));
      forall i | 0 <= i < |files| && files[i].path != MARKER && files[i].path != FENCE
        ensures Stored(bucket.objects, files[i])
      {
        DistinctKeys(files[i].path, MARKER);
        assert Stored(uploaded, files[i]);
      }
    }

    // The manifest may be published, and the tree holds its two artifacts, neither of them empty.
    ghost predicate Declared(manifest: Bytes, files: seq<File>) {
      && publishable(manifest).Some?
      && (exists f :: f in files && f.path == "db.dump" && |f.body| > 0
            && sha(f.body) == publishable(manifest).value.database)
      && (exists f :: f in files && f.path == "filestore.tar" && |f.body| > 0
            && sha(f.body) == publishable(manifest).value.filestore)
    }

    lemma DeclaredIff(manifest: Bytes, files: seq<File>)
      ensures Declared(manifest, files) <==> Expectations(manifest, Some(files)).Some?
    {
      if Expectations(manifest, Some(files)).Some? {
        var e := publishable(manifest).value;
        var i :| 0 <= i < |files| && files[i].path == DATABASE && files[i].body != []
            && sha(files[i].body) == e.database;
        var j :| 0 <= j < |files| && files[j].path == FILESTORE && files[j].body != []
            && sha(files[j].body) == e.filestore;
        assert files[i] in files && files[j] in files;
      }
    }

    // ------------------------------------------------------------ deletion

    // Marker first, then every other listed key but the fence.
    function DeleteOrder(listed: seq<Key>): (r: seq<Key>)
      ensures r != [] && r[0] == KeyOf(MARKER)
      ensures forall k :: k in r <==> k == KeyOf(MARKER) || (k in listed && k != KeyOf(FENCE))
    {
      KeysDistinct();
      [KeyOf(MARKER)] + Others(listed)
    }

    function Others(listed: seq<Key>): (r: seq<Key>)
      ensures forall k :: k in r <==> k in listed && k != KeyOf(MARKER) && k != KeyOf(FENCE)
    {
      if listed == [] then []
      else (if listed[0] in {KeyOf(MARKER), KeyOf(FENCE)} then [] else [listed[0]]) + Others(listed[1..])
    }

    // Keys of other backups, and the fence, are never touched; nothing but the fence is added.
    ghost predicate SparesOthers(s: Objects, t: Objects) {
      && (forall k :: k in s && (!HasPrefix(k, prefix) || k == KeyOf(FENCE)) ==> k in t && t[k] == s[k])
      && (forall k :: k in t && k != KeyOf(FENCE) ==> k in s)
    }

    method DeleteBackup() returns (r: Outcome<seq<Key>>)
      requires History()
      modifies bucket
      ensures History() && old(bucket.trace) <= bucket.trace
      ensures SparesOthers(old(bucket.objects), bucket.objects)
      ensures r.Ok? ==> KeyOf(MARKER) !in bucket.objects && (forall k :: k in r.value ==> k !in bucket.objects)
      ensures r.Ok? && !bucket.stale ==> forall k :: k in bucket.objects && HasPrefix(k, prefix) ==> k == KeyOf(FENCE)
      ensures r.Err? ==> bucket.faults > old(bucket.faults)
    {
      var listed := List();
      if listed.Raised? {
        return Err(Failed(Provider));
      }
      var ordered := DeleteOrder(listed.value);
      forall i | 0 <= i < |ordered| ensures HasPrefix(ordered[i], prefix) && ordered[i] != KeyOf(FENCE) {
        KeysDistinct();
        assert ordered[i] in ordered;
      }
      r := DeleteAll(ordered);
    }

    method DeleteAll(ordered: seq<Key>) returns (r: Outcome<seq<Key>>)
      requires History() && ordered != [] && ordered[0] == KeyOf(MARKER)
      requires forall i :: 0 <= i < |ordered| ==> HasPrefix(ordered[i], prefix) && ordered[i] != KeyOf(FENCE)
      modifies bucket
      ensures History() && old(bucket.trace) <= bucket.trace
      ensures SparesOthers(old(bucket.objects), bucket.objects)
      ensures r.Ok? ==> r.value == ordered && forall k :: k in ordered ==> k !in bucket.objects
      ensures r.Err? ==> bucket.faults > old(bucket.faults)
    {
      for n := 0 to |ordered|
        invariant History() && old(bucket.trace) <= bucket.trace && bucket.faults == old(bucket.faults)
        invariant SparesOthers(old(bucket.objects), bucket.objects)
        invariant forall i :: 0 <= i < n ==> ordered[i] !in bucket.objects
      {
        var deleted := DeleteKey(ordered[n], n > 0);
        if deleted.Raised? {
          return Err(Failed(Provider));
        }
      }
      return Ok(ordered);
    }

    method DeleteKey(key: Key, unpublished: bool) returns (r: Reply<()>)
      requires History() && key != KeyOf(FENCE) && HasPrefix(key, prefix)
      requires if unpublished then KeyOf(MARKER) !in bucket.objects else key == KeyOf(MARKER)
      modifies bucket
      ensures History() && old(bucket.trace) <= bucket.trace && r != Missing
      ensures SparesOthers(old(bucket.objects), bucket.objects)
      ensures r.Returned? ==> key !in bucket.objects && bucket.faults == old(bucket.faults)
      ensures r.Raised? ==> bucket.faults > old(bucket.faults)
    {
      KeysDistinct();
      r := bucket.Delete(key);
      SoundAppend(old(bucket.trace), bucket.objects);
    }

    // ------------------------------------------------------------ reading a completed backup

    // What a complete backup is to its readers.
    ghost predicate Complete(s: Objects) {
      && KeyOf(MARKER) in s
      && readable(s[KeyOf(MARKER)].body).Some?
      && Payload(s, readable(s[KeyOf(MARKER)].body).value)
    }

    function ExpectedDigest(e: Expected, key: Key): Option<string> {
      if key == KeyOf(DATABASE) then Some(e.database) else if key == KeyOf(FILESTORE) then Some(e.filestore) else None
    }

    // Probe, list, read the manifest: the listing and expectations that verification and download share.
    method OpenBackup() returns (r: Outcome<(seq<Key>, Bytes)>)
      requires History()
      modifies bucket
      ensures History() && Untouched()
      ensures r.Ok? ==>
                && KeyOf(MARKER) in bucket.objects && r.value.1 == bucket.objects[KeyOf(MARKER)].body
                && readable(r.value.1).Some?
                && KeyOf(MARKER) in r.value.0 && KeyOf(DATABASE) in r.value.0 && KeyOf(FILESTORE) in r.value.0
                && (forall k :: k in r.value.0 ==> HasPrefix(k, prefix) && k in bucket.objects)
                && (!bucket.stale ==> forall k :: k in old(bucket.objects) && HasPrefix(k, prefix) ==> k in r.value.0)
      ensures r.Err? && Complete(old(bucket.objects)) && !bucket.stale ==>
                bucket.faults > old(bucket.faults) || Fenced()
    {
      if Complete(bucket.objects) {
        CompleteKept(bucket.objects, bucket.objects);
      }
      var probe := AssertNotAbandoned();
      if probe.Err? {
        return Err(probe.failure);
      }
      var listed := List();
      if listed.Raised? {
        return Err(Failed(Provider));
      }
      if KeyOf(MARKER) !in listed.value {
        return Err(Failed(Integrity));
      }
      KeysDistinct();
      var manifest := ReadVerified(KeyOf(MARKER), None);
      if manifest.Err? {
        return Err(manifest.failure);
      }
      if readable(manifest.value).None? || KeyOf(DATABASE) !in listed.value || KeyOf(FILESTORE) !in listed.value {
        return Err(Failed(Integrity));
      }
      return Ok((listed.value, manifest.value));
    }

    predicate GotIt(s: Objects, e: Expected, key: Key, body: Bytes) {
      && key in s && body == s[key].body
      && (key != KeyOf(MARKER) && ExpectedDigest(e, key).Some? ==> sha(body) == ExpectedDigest(e, key).value)
    }

    predicate AsExpected(s: Objects, manifest: Bytes, e: Expected, key: Key) {
      && key in s && HasPrefix(key, prefix)
      && (key == KeyOf(MARKER) ==> sha(s[key].body) == sha(manifest))
      && (key != KeyOf(MARKER) && ExpectedDigest(e, key).Some? ==> sha(s[key].body) == ExpectedDigest(e, key).value)
    }

    // Every listed object is the one its reader expects.
    predicate AllAsExpected(s: Objects, keys: seq<Key>, manifest: Bytes, e: Expected) {
      forall k :: k in keys ==> AsExpected(s, manifest, e, k)
    }

    // Only the fence can appear, and then it is there for good.
    lemma ExpectedKept(s: Objects, t: Objects, manifest: Bytes, e: Expected, key: Key)
      requires OnlyAt(s, t, None, {KeyOf(FENCE)})
      ensures AsExpected(s, manifest, e, key) ==> AsExpected(t, manifest, e, key) || KeyOf(FENCE) in t
    {
    }

    // Read one listed object against its expectation.
    method ReadObject(key: Key, manifest: Bytes, e: Expected) returns (r: Outcome<Bytes>)
      requires History()
      modifies bucket
      ensures History() && Untouched()
      ensures r.Ok? ==> GotIt(bucket.objects, e, key, r.value)
      ensures r.Err? && AsExpected(old(bucket.objects), manifest, e, key) ==>
                bucket.faults > old(bucket.faults) || Fenced()
    {
      var digest := if key == KeyOf(MARKER) then Some(sha(manifest)) else ExpectedDigest(e, key);
      r := ReadVerified(key, digest);
      if r.Err? && AsExpected(old(bucket.objects), manifest, e, key) {
        ExpectedIsReadable(old(bucket.objects), bucket.objects, manifest, e, key);
      }
    }

    // Read every listed object against its expectation; the marker must still have the digest it was read with.
    method ReadObjects(keys: seq<Key>, manifest: Bytes, e: Expected) returns (r: Outcome<map<Key, Bytes>>)
      requires History()
      modifies bucket
      ensures History() && Untouched()
      ensures r.Ok? ==> r.value.Keys == (set k | k in keys)
      ensures r.Ok? ==> forall k :: k in r.value ==> GotIt(bucket.objects, e, k, r.value[k])
      ensures r.Err? && AllAsExpected(old(bucket.objects), keys, manifest, e) ==>
                bucket.faults > old(bucket.faults) || Fenced()
    {
      var got: map<Key, Bytes> := map[];
      for n := 0 to |keys|
        invariant History() && Untouched()
        invariant got.Keys == (set k | k in keys[..n])
        invariant forall k :: k in got ==> GotIt(bucket.objects, e, k, got[k])
      {
        ExpectedKept(old(bucket.objects), bucket.objects, manifest, e, keys[n]);
        var read := ReadObject(keys[n], manifest, e);
        if read.Err? {
          return Err(read.failure);
        }
        got := got[keys[n] := read.value];
        assert keys[..n + 1] == keys[..n] + [keys[n]];
      }
      assert keys[..|keys|] == keys;
      return Ok(got);
    }

    // An expected object passes the checks of a verified read, unless it is the fence.
    lemma ExpectedIsReadable(s: Objects, t: Objects, manifest: Bytes, e: Expected, key: Key)
      requires AsExpected(s, manifest, e, key) && OnlyAt(s, t, None, {KeyOf(FENCE)}) && Safe(t)
      ensures var digest := if key == KeyOf(MARKER) then Some(sha(manifest)) else ExpectedDigest(e, key);
              KeyOf(FENCE) in t ||
              (key in t && Acceptable(t[key], digest, None, true)
               && sha(t[key].body) == digest.GetOr(t[key].meta.GetOr(sha(t[key].body))))
    {
    }

    // A complete backup stays complete while only the fence can appear, and its listing is as expected.
    lemma CompleteKept(s: Objects, t: Objects)
      requires Complete(s) && OnlyAt(s, t, None, {KeyOf(FENCE)})
      ensures Complete(t) && t[KeyOf(MARKER)] == s[KeyOf(MARKER)]
      ensures HasPrefix(KeyOf(MARKER), prefix) && HasPrefix(KeyOf(DATABASE), prefix)
                && HasPrefix(KeyOf(FILESTORE), prefix)
      ensures forall keys :: (forall k :: k in keys ==> k in t && HasPrefix(k, prefix)) ==>
                AllAsExpected(t, keys, s[KeyOf(MARKER)].body, readable(s[KeyOf(MARKER)].body).value)
    {
      KeysDistinct();
    }

    // Everything a reader fetches before its last probe.
    method ReadBackup() returns (r: Outcome<map<Key, Bytes>>)
      requires History()
      modifies bucket
      ensures History() && Untouched()
      ensures r.Ok? ==> Complete(bucket.objects)
      ensures r.Ok? ==> Copied(bucket.objects, r.value) && (!bucket.stale ==> Covered(old(bucket.objects), r.value))
      ensures r.Err? && Complete(old(bucket.objects)) && !bucket.stale ==>
                bucket.faults > old(bucket.faults) || Fenced()
    {
      var backup := OpenBackup();
      if backup.Err? {
        return Err(backup.failure);
      }
      var (keys, manifest) := backup.value;
      ghost var before := bucket.objects;
      KeysDistinct();
      if Complete(old(bucket.objects)) {
        CompleteKept(old(bucket.objects), before);
      }
      r := ReadObjects(keys, manifest, readable(manifest).value);
      assert bucket.objects[KeyOf(MARKER)] == before[KeyOf(MARKER)];
      if r.Ok? {
        GotComplete(bucket.objects, manifest, r.value);
      }
    }

    // What was read are bytes of this backup's stored objects.
    predicate Copied(s: Objects, got: map<Key, Bytes>) {
      forall k :: k in got ==> HasPrefix(k, prefix) && k in s && got[k] == s[k].body
    }

    // Every object of this backup was read.
    predicate Covered(s: Objects, got: map<Key, Bytes>) {
      forall k :: k in s && HasPrefix(k, prefix) ==> k in got
    }

    lemma GotComplete(s: Objects, manifest: Bytes, got: map<Key, Bytes>)
      requires KeyOf(MARKER) in s && s[KeyOf(MARKER)].body == manifest && readable(manifest).Some?
      requires KeyOf(DATABASE) in got && KeyOf(FILESTORE) in got
      requires forall k :: k in got ==> GotIt(s, readable(manifest).value, k, got[k])
      ensures Complete(s)
    {
      KeysDistinct();
    }

    // Verification succeeds only for a complete backup whose fence was absent at the final probe.
    method VerifyBackup() returns (r: Outcome<set<Key>>)
      requires History()
      modifies bucket
      ensures History() && Untouched()
      ensures r.Ok? ==> Complete(bucket.objects) && !Fenced()
      ensures r.Err? && Complete(old(bucket.objects)) && !bucket.stale ==>
                bucket.faults > old(bucket.faults) || Fenced()
    {
      var read := ReadBackup();
      if read.Err? {
        return Err(read.failure);
      }
      var probe := AssertNotAbandoned();
      if probe.Err? {
        return Err(probe.failure);
      }
      return Ok(read.value.Keys);
    }

    // A download is published locally between two probes and withdrawn if the second one sees the fence; what it
    // returns is exactly the stored bytes of a complete backup.
    method DownloadBackup() returns (r: Outcome<map<Key, Bytes>>)
      requires History()
      modifies bucket
      ensures History() && Untouched()
      ensures r.Ok? ==> Complete(bucket.objects) && !Fenced() && bucket.objects == old(bucket.objects)
      ensures r.Ok? ==> Copied(bucket.objects, r.value) && (!bucket.stale ==> Covered(bucket.objects, r.value))
      ensures r.Err? && Complete(old(bucket.objects)) && !bucket.stale ==>
                bucket.faults > old(bucket.faults) || Fenced()
    {
      var read := ReadBackup();
      if read.Err? {
        return Err(read.failure);
      }
      var before := AssertNotAbandoned();
      if before.Err? {
        return Err(before.failure);
      }
      var after := AssertNotAbandoned();
      if after.Err? {
        return Err(after.failure);
      }
      return Ok(read.value);
    }

    // Whether the listing advertises this id: its marker is listed and no fence is found.
    method IsListed() returns (r: Outcome<bool>)
      requires History()
      modifies bucket
      ensures History() && Untouched()
      ensures r.Ok? && r.value ==> KeyOf(MARKER) in bucket.objects && !Fenced()
      ensures r.Ok? && !r.value && !bucket.stale ==> KeyOf(MARKER) !in bucket.objects || Fenced()
    {
      KeysDistinct();
      var listed := List();
      if listed.Raised? {
        return Err(Failed(Provider));
      }
      if KeyOf(MARKER) !in listed.value {
        return Ok(false);
      }
      var probe := Probe();
      if probe.Raised? {
        return Err(Failed(Provider));
      }
      return Ok(!probe.value);
    }
  }

  // Any sequence of uploads, direct manifest publications and deletions, each of which may fail or be cut off at any
  // call, while another actor may install the fence at any moment.
  datatype Op = Upload(files: seq<File>, manifest: Bytes) | Publish(manifest: Bytes) | Remove

  // A stored marker may be published and names, by digest, the two artifacts that are stored; a digest recorded beside
  // an object of the backup is that of its bytes.
  ghost predicate Advertises(s: Objects, prefix: string, sha: Bytes -> string, publishable: Bytes -> Option<Expected>) {
    && (prefix + "manifest.json" in s ==>
          && publishable(s[prefix + "manifest.json"].body).Some?
          && var e := publishable(s[prefix + "manifest.json"].body).value;
             && prefix + "db.dump" in s && sha(s[prefix + "db.dump"].body) == e.database
             && prefix + "filestore.tar" in s && sha(s[prefix + "filestore.tar"].body) == e.filestore)
    && forall k :: k in s && prefix <= k && k != prefix + "abandoned.json" && s[k].meta.Some? ==>
         s[k].meta.value == sha(s[k].body)
  }

  lemma SafeAdvertises(b: PortableBackups, s: Objects)
    requires b.Safe(s)
    ensures Advertises(s, b.prefix, b.sha, b.publishable)
  {
    assert b.KeyOf(MARKER) == b.prefix + "manifest.json" && b.KeyOf(FENCE) == b.prefix + "abandoned.json";
    assert b.KeyOf(DATABASE) == b.prefix + "db.dump" && b.KeyOf(FILESTORE) == b.prefix + "filestore.tar";
  }

  method AnyRun(b: PortableBackups, ops: seq<Op>)
    requires b.bucket.shared == {b.KeyOf(FENCE)} && b.bucket.trace == [b.bucket.objects] && b.Safe(b.bucket.objects)
    requires forall op :: op in ops && op.Upload? ==> b.DistinctPaths(op.files)
    modifies b.bucket
    ensures forall i :: 0 <= i < |b.bucket.trace| ==> Advertises(b.bucket.trace[i], b.prefix, b.sha, b.publishable)
    ensures forall i, j :: 0 <= i <= j < |b.bucket.trace| && b.KeyOf(FENCE) in b.bucket.trace[i] ==>
              b.KeyOf(FENCE) in b.bucket.trace[j]
    ensures old(b.bucket.trace) <= b.bucket.trace
  {
    for n := 0 to |ops|
      invariant b.History() && old(b.bucket.trace) <= b.bucket.trace
    {
      match ops[n]
      case Upload(files, manifest) => var _ := b.UploadBackup(files, manifest);
      case Publish(manifest) => var _ := b.UploadManifest(manifest, None);
      case Remove => var _ := b.DeleteBackup();
    }
    forall i | 0 <= i < |b.bucket.trace|
      ensures Advertises(b.bucket.trace[i], b.prefix, b.sha, b.publishable)
    {
      SafeAdvertises(b, b.bucket.trace[i]);
    }
  }
}
