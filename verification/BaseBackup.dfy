/**
 Physical base backups: payload objects are write-once, the completion marker is created last and deleted first.

 One actor works on one base id at a time; its calls may fail or be cut off anywhere.  History says that Safe held
 after every object-store call since the bucket was created.
 */
module BaseBackup {
  import opened Option
  import opened Text
  import opened ObjectStore

  const MARKER := "manifest.json"

  // What a completion manifest declares about one payload file.
  datatype Artifact = Artifact(path: string, sha256: string, size: Option<nat>)

  datatype Failure = NotFound | Provider | Integrity | Conflict | CoordinationLost(before: nat) | WithdrawalFailed

  datatype Outcome<+T> = Ok(value: T) | Err(why: Failure)

  datatype Receipt = Receipt(size: nat, sha256: string, idempotent: bool)

  // A local file of the backup tree.
  datatype File = File(path: string, body: Bytes)

  // A manifest declares at least one artifact, none twice, and never itself.
  predicate GoodManifest(artifacts: seq<Artifact>) {
    && artifacts != []
    && (forall i :: 0 <= i < |artifacts| ==> artifacts[i].path != MARKER)
    && (forall i, j :: 0 <= i < j < |artifacts| ==> artifacts[i].path != artifacts[j].path)
  }

  class BaseBackups {
    const bucket: Bucket
    // The key prefix of this base id, and the hash and manifest reader in use.
    const prefix: string
    const sha: Bytes -> string
    const parse: Bytes -> Option<seq<Artifact>>

    constructor (bucket: Bucket, prefix: string, sha: Bytes -> string, parse: Bytes -> Option<seq<Artifact>>)
      ensures this.bucket == bucket && this.prefix == prefix && this.sha == sha && this.parse == parse
    {
      this.bucket, this.prefix, this.sha, this.parse := bucket, prefix, sha, parse;
    }

    function KeyOf(path: string): Key {
      prefix + path
    }

    function Manifest(body: Bytes): Option<seq<Artifact>> {
      match parse(body)
      case None => None
      case Some(artifacts) => if GoodManifest(artifacts) then Some(artifacts) else None
    }

    predicate Matches(a: Artifact, body: Bytes) {
      sha(body) == a.sha256 && (a.size.Some? ==> |body| == a.size.value)
    }

    predicate Present(s: Objects, artifacts: seq<Artifact>) {
      forall i :: 0 <= i < |artifacts| ==>
        KeyOf(artifacts[i].path) in s && Matches(artifacts[i], s[KeyOf(artifacts[i].path)].body)
    }

    // If the completion marker is stored, every artifact it declares is stored with its declared digest and size.
    predicate Safe(s: Objects) {
      KeyOf(MARKER) in s ==>
        Manifest(s[KeyOf(MARKER)].body).Some? && Present(s, Manifest(s[KeyOf(MARKER)].body).value)
    }

    ghost predicate History()
      reads bucket
    {
      && bucket.shared == {}
      && !bucket.stale
      && Safe(bucket.objects)
      && forall i :: 0 <= i < |bucket.trace| ==> Safe(bucket.trace[i])
    }

    // ------------------------------------------------------------ verified reads and immutable writes

    predicate Stored(key: Key, body: Bytes)
      reads bucket
    {
      key in bucket.objects && bucket.objects[key] == Object(body, Some(sha(body)))
    }

    // HEAD, then GET: the stored bytes must have the recorded and the expected digest and size.
    method ReadVerified(key: Key, expected: Option<string>, size: Option<nat>) returns (r: Outcome<Bytes>)
      requires History()
      modifies bucket
      ensures History() && old(bucket.trace) <= bucket.trace && bucket.objects == old(bucket.objects)
      ensures bucket.faults >= old(bucket.faults)
      ensures r.Ok? ==> key in bucket.objects && r.value == bucket.objects[key].body
                        && (expected.Some? ==> sha(r.value) == expected.value)
                        && (size.Some? ==> |r.value| == size.value)
                        && bucket.objects[key].meta == Some(sha(r.value))
      ensures r.Err? ==> r.why.NotFound? || r.why.Integrity? || r.why.Provider?
      ensures r == Err(NotFound) ==> key !in bucket.objects
      ensures r == Err(Provider) ==> bucket.faults > old(bucket.faults)
      ensures key in bucket.objects && bucket.objects[key].meta == Some(sha(bucket.objects[key].body))
              && (expected.Some? ==> sha(bucket.objects[key].body) == expected.value)
              && (size.Some? ==> |bucket.objects[key].body| == size.value)
              ==> r.Ok? || r == Err(Provider)
    {
      var head := bucket.Head(key);
      if head.Missing? {
        return Err(NotFound);
      }
      if head.Raised? {
        return Err(Provider);
      }
      var info := head.value;
      if info.meta.None? {
        return Err(Integrity);
      }
      var digest := if expected.Some? then expected.value else info.meta.value;
      if info.meta.value != digest || (size.Some? && info.size != size.value) {
        return Err(Integrity);
      }
      var body := bucket.Get(key);
      if body.Missing? {
        return Err(NotFound);
      }
      if body.Raised? {
        return Err(Provider);
      }
      if |body.value| != info.size || sha(body.value) != digest {
        return Err(Integrity);
      }
      return Ok(body.value);
    }

    // Conditional creation; a retry succeeds only over identical content.
    method PutImmutable(key: Key, body: Bytes) returns (r: Outcome<Receipt>)
      requires History()
      requires key == KeyOf(MARKER) ==> Manifest(body).Some? && Present(bucket.objects, Manifest(body).value)
      modifies bucket
      ensures History() && old(bucket.trace) <= bucket.trace && bucket.faults >= old(bucket.faults)
      ensures OnlyAt(old(bucket.objects), bucket.objects, Some(key), {})
      ensures key in old(bucket.objects) ==> bucket.objects == old(bucket.objects)
      ensures key in bucket.objects && key !in old(bucket.objects) ==>
                bucket.objects[key] == Object(body, Some(sha(body)))
      ensures r.Ok? ==> key in bucket.objects && sha(bucket.objects[key].body) == sha(body) == r.value.sha256
                        && |bucket.objects[key].body| == |body| == r.value.size
      ensures r.Ok? && !r.value.idempotent ==> key !in old(bucket.objects)
      ensures r.Err? ==> r.why.Conflict? || r.why.Provider? || r.why.NotFound? || r.why.Integrity?
      ensures r.Ok? && r.value.idempotent ==> key in old(bucket.objects) || bucket.faults > old(bucket.faults)
      ensures bucket.faults == old(bucket.faults) && key !in old(bucket.objects) ==> r.Ok?
      ensures bucket.faults == old(bucket.faults) && key in old(bucket.objects) && old(Stored(key, body)) ==> r.Ok?
    {
      var digest := sha(body);
      var put := bucket.PutIfAbsent(key, Object(body, Some(digest)));
      var read := ReadVerified(key, Some(digest), Some(|body|));
      if read.Ok? {
        return Ok(Receipt(|body|, digest, !put.Returned?));
      }
      if put.Returned? {
        return Err(read.why);
      }
      if read == Err(Integrity) {
        return Err(Conflict);
      }
      return Err(Provider);
    }

    // ------------------------------------------------------------ publication

    // What is stored stays, and only payload of the first n files is added.
    ghost predicate OnlyAdded(s: Objects, t: Objects, files: seq<File>, n: nat)
      requires n <= |files|
    {
      && (forall k :: k in s ==> k in t && t[k] == s[k])
      && (forall k :: k in t && k !in s ==>
          exists i :: 0 <= i < n && files[i].path != MARKER && k == KeyOf(files[i].path))
    }

    // The payload among the first n files is stored, by digest and size.
    predicate Sent(s: Objects, files: seq<File>, n: nat)
      requires n <= |files|
    {
      forall i :: 0 <= i < n && files[i].path != MARKER ==> SameContent(s, files[i])
    }

    predicate SameContent(s: Objects, f: File) {
      KeyOf(f.path) in s && sha(s[KeyOf(f.path)].body) == sha(f.body) && |s[KeyOf(f.path)].body| == |f.body|
    }

    method UploadPayload(files: seq<File>) returns (r: Outcome<()>)
      requires History()
      modifies bucket
      ensures History() && old(bucket.trace) <= bucket.trace && bucket.faults >= old(bucket.faults)
      ensures OnlyAdded(old(bucket.objects), bucket.objects, files, |files|)
      ensures r.Ok? ==> Sent(bucket.objects, files, |files|)
      ensures Resumable(old(bucket.objects), files) ==>
                Resumable(bucket.objects, files) && (r.Ok? || bucket.faults > old(bucket.faults))
    {
      for n := 0 to |files|
        invariant History() && old(bucket.trace) <= bucket.trace && bucket.faults >= old(bucket.faults)
        invariant OnlyAdded(old(bucket.objects), bucket.objects, files, n)
        invariant Sent(bucket.objects, files, n)
        invariant Resumable(old(bucket.objects), files) ==> Resumable(bucket.objects, files)
      {
        ghost var before := bucket.objects;
        var sent := UploadFile(files, n);
        AddedNext(old(bucket.objects), before, bucket.objects, files, n);
        if sent.Err? {
          return Err(sent.why);
        }
        SentNext(before, bucket.objects, files, n);
      }
      return Ok(());
    }

    // The marker is no payload.
    method UploadFile(files: seq<File>, n: nat) returns (r: Outcome<()>)
      requires History() && n < |files|
      modifies bucket
      ensures History() && old(bucket.trace) <= bucket.trace && bucket.faults >= old(bucket.faults)
      ensures OneAdded(old(bucket.objects), bucket.objects, files[n])
      ensures r.Ok? && files[n].path != MARKER ==> SameContent(bucket.objects, files[n])
      ensures Resumable(old(bucket.objects), files) ==>
                Resumable(bucket.objects, files) && (r.Ok? || bucket.faults > old(bucket.faults))
    {
      if files[n].path == MARKER {
        return Ok(());
      }
      DistinctKeys(files[n].path, MARKER);
      var put := PutImmutable(KeyOf(files[n].path), files[n].body);
      ResumableNext(old(bucket.objects), bucket.objects, files, n);
      return if put.Ok? then Ok(()) else Err(put.why);
    }

    // At most this payload is added.
    predicate OneAdded(s: Objects, t: Objects, f: File) {
      s == t || (f.path != MARKER && KeyOf(f.path) !in s && KeyOf(f.path) in t
          && t == s[KeyOf(f.path) := t[KeyOf(f.path)]])
    }

    lemma AddedNext(start: Objects, s: Objects, t: Objects, files: seq<File>, n: nat)
      requires n < |files| && OnlyAdded(start, s, files, n) && OneAdded(s, t, files[n])
      ensures OnlyAdded(start, t, files, n + 1)
    {
      forall k | k in t && k !in start
        ensures exists i :: 0 <= i < n + 1 && files[i].path != MARKER && k == KeyOf(files[i].path)
      {
        if k in s {
          var i :| 0 <= i < n && files[i].path != MARKER && k == KeyOf(files[i].path);
        } else {
          assert k == KeyOf(files[n].path);
        }
      }
    }

    lemma SentNext(s: Objects, t: Objects, files: seq<File>, n: nat)
      requires n < |files| && Sent(s, files, n) && OneAdded(s, t, files[n])
      requires files[n].path != MARKER ==> SameContent(t, files[n])
      ensures Sent(t, files, n + 1)
    {
      forall i | 0 <= i < n && files[i].path != MARKER ensures SameContent(t, files[i]) {
        assert SameContent(s, files[i]);
      }
    }

    // What an interrupted upload of the same tree leaves: nothing else is stored under its payload keys.
    predicate Resumable(s: Objects, files: seq<File>) {
      && (forall i, j :: 0 <= i < j < |files| ==> files[i].path != files[j].path)
      && (forall i :: 0 <= i < |files| && files[i].path != MARKER && KeyOf(files[i].path) in s ==>
            s[KeyOf(files[i].path)] == Object(files[i].body, Some(sha(files[i].body))))
    }

    lemma ResumableNext(s: Objects, t: Objects, files: seq<File>, n: nat)
      requires n < |files| && OnlyAt(s, t, Some(KeyOf(files[n].path)), {})
      requires KeyOf(files[n].path) in s ==> t == s
      requires KeyOf(files[n].path) in t && KeyOf(files[n].path) !in s ==>
                 t[KeyOf(files[n].path)] == Object(files[n].body, Some(sha(files[n].body)))
      ensures Resumable(s, files) ==> Resumable(t, files)
    {
      forall i | 0 <= i < |files|
        ensures KeyOf(files[i].path) == KeyOf(files[n].path) ==> files[i].path == files[n].path
      {
        DistinctKeys(files[i].path, files[n].path);
      }
    }

    lemma DistinctKeys(p: string, q: string)
      ensures KeyOf(p) == KeyOf(q) ==> p == q
    {
      assert KeyOf(p)[|prefix|..] == p && KeyOf(q)[|prefix|..] == q;
    }

    function PayloadKeys(artifacts: seq<Artifact>): (r: set<Key>)
      ensures forall k :: k in r <==> exists i :: 0 <= i < |artifacts| && k == KeyOf(artifacts[i].path)
    {
      set i | 0 <= i < |artifacts| :: KeyOf(artifacts[i].path)
    }

    function Inventory(s: Objects): set<Key> {
      set k | k in s && HasPrefix(k, prefix)
    }

    // Present, each with the digest of its bytes recorded beside it.
    predicate Verifiable(s: Objects, artifacts: seq<Artifact>) {
      forall i :: 0 <= i < |artifacts| ==>
          Recorded(s, KeyOf(artifacts[i].path)) && Matches(artifacts[i], s[KeyOf(artifacts[i].path)].body)
    }

    predicate Recorded(s: Objects, key: Key) {
      key in s && s[key].meta == Some(sha(s[key].body))
    }

    // The marker declares exactly what is stored.
    predicate Exact(s: Objects) {
      && KeyOf(MARKER) in s
      && Manifest(s[KeyOf(MARKER)].body).Some?
      && var artifacts := Manifest(s[KeyOf(MARKER)].body).value;
         Present(s, artifacts) && Inventory(s) == {KeyOf(MARKER)} + PayloadKeys(artifacts)
    }

    // A published base as its readers accept it.
    predicate Published(s: Objects) {
      && Recorded(s, KeyOf(MARKER))
      && Manifest(s[KeyOf(MARKER)].body).Some?
      && var artifacts := Manifest(s[KeyOf(MARKER)].body).value;
         Verifiable(s, artifacts) && Inventory(s) == {KeyOf(MARKER)} + PayloadKeys(artifacts)
    }

    // Read back every declared artifact.
    method VerifyPayload(artifacts: seq<Artifact>) returns (r: Outcome<()>)
      requires History()
      modifies bucket
      ensures History() && old(bucket.trace) <= bucket.trace && bucket.objects == old(bucket.objects)
      ensures bucket.faults >= old(bucket.faults)
      ensures r.Ok? ==> Present(bucket.objects, artifacts)
      ensures r.Err? && Verifiable(bucket.objects, artifacts) ==> bucket.faults > old(bucket.faults)
    {
      for n := 0 to |artifacts|
        invariant History() && old(bucket.trace) <= bucket.trace && bucket.objects == old(bucket.objects)
        invariant bucket.faults >= old(bucket.faults)
        invariant Present(bucket.objects, artifacts[..n])
      {
        var read := ReadVerified(KeyOf(artifacts[n].path), Some(artifacts[n].sha256), artifacts[n].size);
        if read.Err? {
          return Err(read.why);
        }
        assert artifacts[..n + 1] == artifacts[..n] + [artifacts[n]];
      }
      assert artifacts[..|artifacts|] == artifacts;
      return Ok(());
    }

    // Without other actors a listing changes nothing.
    lemma Unchanged(start: Objects, trace: seq<Objects>, from: nat)
      requires from <= |trace| && Growing(Since(start, trace, from), {})
      ensures forall i :: from <= i < |trace| ==> trace[i] == start
    {
      forall i | from <= i < |trace| ensures trace[i] == start {
        var seen := Since(start, trace, from);
        assert seen[i - from + 1] == trace[i] && OnlyAt(seen[0], seen[i - from + 1], None, {});
      }
    }

    // List the prefix; None when the call raised.
    method ListInventory() returns (r: Option<set<Key>>)
      requires History()
      modifies bucket
      ensures History() && old(bucket.trace) <= bucket.trace && bucket.objects == old(bucket.objects)
      ensures bucket.faults >= old(bucket.faults)
      ensures r.Some? ==> r.value == Inventory(bucket.objects)
      ensures r.None? ==> bucket.faults > old(bucket.faults)
    {
      var listed := ListObjects(bucket, prefix);
      Unchanged(old(bucket.objects), bucket.trace, |old(bucket.trace)|);
      assert bucket.objects == old(bucket.objects);
      if listed.Raised? {
        return None;
      }
      r := Some(set k | k in listed.value);
      assert forall k :: k in r.value <==> k in Inventory(bucket.objects);
    }

    // The marker is stored, parses, and is matched by exactly the declared, byte-verified objects.
    method VerifyBase() returns (r: Outcome<seq<Artifact>>)
      requires History()
      modifies bucket
      ensures History() && old(bucket.trace) <= bucket.trace && bucket.objects == old(bucket.objects)
      ensures bucket.faults >= old(bucket.faults)
      ensures r.Ok? ==> KeyOf(MARKER) in bucket.objects
                        && Manifest(bucket.objects[KeyOf(MARKER)].body) == Some(r.value)
                        && Present(bucket.objects, r.value)
                        && Inventory(bucket.objects) == {KeyOf(MARKER)} + PayloadKeys(r.value)
      ensures r.Err? && Published(bucket.objects) ==> bucket.faults > old(bucket.faults)
    {
      var marker := ReadVerified(KeyOf(MARKER), None, None);
      if marker.Err? {
        return Err(marker.why);
      }
      var artifacts := Manifest(marker.value);
      if artifacts.None? {
        return Err(Integrity);
      }
      var listed := ListInventory();
      if listed.None? {
        return Err(Provider);
      }
      if listed.value != {KeyOf(MARKER)} + PayloadKeys(artifacts.value) {
        return Err(Integrity);
      }
      var payload := VerifyPayload(artifacts.value);
      if payload.Err? {
        return Err(payload.why);
      }
      return Ok(artifacts.value);
    }

    // Verify the payload, create the marker, verify the whole; a marker this call created is withdrawn if that fails.
    method PublishManifest(body: Bytes) returns (r: Outcome<bool>, ghost created: bool)
      requires History()
      modifies bucket
      ensures History() && old(bucket.trace) <= bucket.trace && bucket.faults >= old(bucket.faults)
      ensures OnlyAt(old(bucket.objects), bucket.objects, Some(KeyOf(MARKER)), {})
      ensures r.Ok? ==> Exact(bucket.objects) && sha(bucket.objects[KeyOf(MARKER)].body) == sha(body)
      ensures r.Ok? && r.value ==> KeyOf(MARKER) in old(bucket.objects) || bucket.faults > old(bucket.faults)
      ensures r.Ok? ==> Manifest(body).Some? && OnlyDeclared(bucket.objects, Manifest(body).value)
      ensures created ==> KeyOf(MARKER) !in old(bucket.objects)
      ensures r.Ok? ==> r.value == !created
      ensures r.Err? && created && !r.why.WithdrawalFailed? ==> KeyOf(MARKER) !in bucket.objects
      ensures r.Err? && Publishable(old(bucket.objects), body) ==> bucket.faults > old(bucket.faults)
    {
      created := false;
      var artifacts := Manifest(body);
      if artifacts.None? {
        return Err(Integrity), created;
      }
      var checked := CheckPayload(artifacts.value);
      if checked.Err? {
        return Err(checked.why), created;
      }
      ghost var before := bucket.objects;
      r, created := PublishVerified(body);
      OnlyMarkerAdded(before, bucket.objects, artifacts.value);
    }

    // Beside the marker, only declared payload is stored under the prefix.
    ghost predicate OnlyDeclared(s: Objects, artifacts: seq<Artifact>) {
      forall k :: k in Inventory(s) && k != KeyOf(MARKER) ==> k in PayloadKeys(artifacts)
    }

    lemma OnlyMarkerAdded(s: Objects, t: Objects, artifacts: seq<Artifact>)
      requires Inventory(s) - {KeyOf(MARKER)} == PayloadKeys(artifacts) - {KeyOf(MARKER)}
      requires OnlyAt(s, t, Some(KeyOf(MARKER)), {})
      ensures OnlyDeclared(t, artifacts)
    {
      forall k | k in Inventory(t) && k != KeyOf(MARKER) ensures k in PayloadKeys(artifacts) {
        assert k in Inventory(s) - {KeyOf(MARKER)};
      }
    }

    // The declared artifacts are stored, and nothing beside them but perhaps a marker.
    method CheckPayload(artifacts: seq<Artifact>) returns (r: Outcome<()>)
      requires History()
      modifies bucket
      ensures History() && old(bucket.trace) <= bucket.trace && bucket.objects == old(bucket.objects)
      ensures bucket.faults >= old(bucket.faults)
      ensures r.Ok? ==>
                Present(bucket.objects, artifacts)
                && Inventory(bucket.objects) - {KeyOf(MARKER)} == PayloadKeys(artifacts) - {KeyOf(MARKER)}
      ensures r.Err? && Verifiable(bucket.objects, artifacts)
              && Inventory(bucket.objects) - {KeyOf(MARKER)} == PayloadKeys(artifacts)
              ==> bucket.faults > old(bucket.faults)
    {
      var payload := VerifyPayload(artifacts);
      if payload.Err? {
        return Err(payload.why);
      }
      var listed := ListInventory();
      if listed.None? {
        return Err(Provider);
      }
      var expected := PayloadKeys(artifacts);
      assert Inventory(bucket.objects) - {KeyOf(MARKER)} == expected ==>
          Inventory(bucket.objects) == if KeyOf(MARKER) in Inventory(bucket.objects) then expected + {KeyOf(MARKER)}
              else expected;
      if listed.value != expected && listed.value != expected + {KeyOf(MARKER)} {
        return Err(Integrity);
      }
      return Ok(());
    }

    method PublishVerified(body: Bytes) returns (r: Outcome<bool>, ghost created: bool)
      requires History() && Manifest(body).Some? && Present(bucket.objects, Manifest(body).value)
      modifies bucket
      ensures History() && old(bucket.trace) <= bucket.trace && bucket.faults >= old(bucket.faults)
      ensures OnlyAt(old(bucket.objects), bucket.objects, Some(KeyOf(MARKER)), {})
      ensures r.Ok? ==> Exact(bucket.objects) && sha(bucket.objects[KeyOf(MARKER)].body) == sha(body)
      ensures r.Ok? && r.value ==> KeyOf(MARKER) in old(bucket.objects) || bucket.faults > old(bucket.faults)
      ensures created ==> KeyOf(MARKER) !in old(bucket.objects)
      ensures r.Ok? ==> r.value == !created
      ensures r.Err? && created && !r.why.WithdrawalFailed? ==> KeyOf(MARKER) !in bucket.objects
      ensures r.Err? && Publishable(old(bucket.objects), body) ==> bucket.faults > old(bucket.faults)
    {
      var put := PutMarker(body);
      created := put.Ok? && !put.value.idempotent;
      if put.Err? {
        return Err(put.why), created;
      }
      var verified := VerifyBase();
      if verified.Err? {
        if !put.value.idempotent {
          var withdrawn := bucket.Delete(KeyOf(MARKER));
          if withdrawn.Raised? {
            return Err(WithdrawalFailed), created;
          }
        }
        return Err(verified.why), created;
      }
      return Ok(put.value.idempotent), created;
    }

    // The marker of a payload that has just been verified.
    method PutMarker(body: Bytes) returns (r: Outcome<Receipt>)
      requires History() && Manifest(body).Some? && Present(bucket.objects, Manifest(body).value)
      modifies bucket
      ensures History() && old(bucket.trace) <= bucket.trace && bucket.faults >= old(bucket.faults)
      ensures OnlyAt(old(bucket.objects), bucket.objects, Some(KeyOf(MARKER)), {})
      ensures r.Ok? ==> KeyOf(MARKER) in bucket.objects && sha(bucket.objects[KeyOf(MARKER)].body) == sha(body)
      ensures r.Ok? && r.value.idempotent ==> KeyOf(MARKER) in old(bucket.objects) || bucket.faults > old(bucket.faults)
      ensures r.Ok? && !r.value.idempotent ==> KeyOf(MARKER) !in old(bucket.objects)
      ensures Publishable(old(bucket.objects), body) ==>
                bucket.faults > old(bucket.faults) || (r.Ok? && Published(bucket.objects))
    {
      r := PutImmutable(KeyOf(MARKER), body);
      if Publishable(old(bucket.objects), body) && r.Ok? {
        MarkerPublishes(old(bucket.objects), bucket.objects, body);
      }
    }

    // The payload is stored, nothing else is, and no other marker is.
    predicate Publishable(s: Objects, body: Bytes) {
      && Manifest(body).Some?
      && Verifiable(s, Manifest(body).value)
      && Inventory(s) - {KeyOf(MARKER)} == PayloadKeys(Manifest(body).value)
      && (KeyOf(MARKER) in s ==> s[KeyOf(MARKER)] == Object(body, Some(sha(body))))
    }

    lemma MarkerPublishes(s: Objects, t: Objects, body: Bytes)
      requires Publishable(s, body) && OnlyAt(s, t, Some(KeyOf(MARKER)), {})
      requires KeyOf(MARKER) in t && t[KeyOf(MARKER)] == Object(body, Some(sha(body)))
      ensures Published(t)
    {
      var artifacts := Manifest(body).value;
      forall i | 0 <= i < |artifacts| ensures KeyOf(artifacts[i].path) != KeyOf(MARKER) {
        DistinctKeys(artifacts[i].path, MARKER);
      }
      assert HasPrefix(KeyOf(MARKER), prefix);
      assert Inventory(t) == {KeyOf(MARKER)} + PayloadKeys(artifacts);
    }

    function LocalPaths(files: seq<File>): (r: set<string>)
      ensures forall p :: p in r <==> p != MARKER && exists j :: 0 <= j < |files| && files[j].path == p
    {
      set j | 0 <= j < |files| && files[j].path != MARKER :: files[j].path
    }

    function DeclaredPaths(artifacts: seq<Artifact>): (r: set<string>)
      ensures forall p :: p in r <==> exists i :: 0 <= i < |artifacts| && artifacts[i].path == p
    {
      set i | 0 <= i < |artifacts| :: artifacts[i].path
    }

    // The local tree holds exactly the declared files, with the declared digests and sizes.
    predicate LocalMatches(files: seq<File>, artifacts: seq<Artifact>) {
      && LocalPaths(files) == DeclaredPaths(artifacts)
      && forall f, a :: f in files && a in artifacts && f.path == a.path ==> Matches(a, f.body)
    }

    // A valid local tree, over whatever an interrupted upload or deletion of that tree left: without a failing call the
    // next upload succeeds.
    predicate Retriable(s: Objects, files: seq<File>, manifest: Bytes) {
      && Manifest(manifest).Some?
      && LocalMatches(files, Manifest(manifest).value)
      && Resumable(s, files)
      && (KeyOf(MARKER) in s ==> s[KeyOf(MARKER)] == Object(manifest, Some(sha(manifest))))
      && (forall k :: k in Inventory(s) ==> k == KeyOf(MARKER) || k in PayloadKeys(Manifest(manifest).value))
    }

    // Validate locally, upload the payload, publish the manifest. On success the prefix holds the files of the tree and
    // the marker, and nothing else. A tree that is not as declared changes nothing.
    method UploadBase(files: seq<File>, manifest: Bytes) returns (r: Outcome<bool>)
      requires History()
      modifies bucket
      ensures History() && old(bucket.trace) <= bucket.trace
      ensures forall k :: k in old(bucket.objects) && k != KeyOf(MARKER) ==>
                k in bucket.objects && bucket.objects[k] == old(bucket.objects[k])
      ensures r.Ok? ==> Exact(bucket.objects) && sha(bucket.objects[KeyOf(MARKER)].body) == sha(manifest)
      ensures r.Ok? ==> HoldsTree(bucket.objects, files)
      ensures !LocalMatches(files, parse(manifest).GetOr([])) ==> r.Err? && bucket.objects == old(bucket.objects)
      ensures r.Err? && Retriable(old(bucket.objects), files, manifest) ==> bucket.faults > old(bucket.faults)
    {
      var artifacts := Manifest(manifest);
      if artifacts.None? || !LocalMatches(files, artifacts.value) {
        return Err(Integrity);
      }
      var payload := UploadPayload(files);
      if payload.Err? {
        return Err(payload.why);
      }
      if Retriable(old(bucket.objects), files, manifest) {
        PayloadIsPublishable(old(bucket.objects), bucket.objects, files, manifest);
      }
      ghost var sent := bucket.objects;
      var published, _ := PublishManifest(manifest);
      if published.Ok? {
        TreeIsHeld(sent, bucket.objects, files, artifacts.value);
      }
      return published;
    }

    // The files of the tree are stored, by digest and size, and nothing else is but the marker.
    ghost predicate HoldsTree(s: Objects, files: seq<File>) {
      && (forall f :: f in files && f.path != "manifest.json" ==>
            prefix + f.path in s && sha(s[prefix + f.path].body) == sha(f.body)
            && |s[prefix + f.path].body| == |f.body|)
      && (forall k :: k in s && HasPrefix(k, prefix) && k != prefix + "manifest.json" ==>
            exists f :: f in files && f.path != "manifest.json" && k == prefix + f.path)
    }

    lemma TreeIsHeld(s: Objects, t: Objects, files: seq<File>, artifacts: seq<Artifact>)
      requires Sent(s, files, |files|) && OnlyAt(s, t, Some(KeyOf(MARKER)), {})
      requires LocalMatches(files, artifacts) && OnlyDeclared(t, artifacts)
      ensures HoldsTree(t, files)
    {
      forall f | f in files && f.path != MARKER
        ensures KeyOf(f.path) in t && sha(t[KeyOf(f.path)].body) == sha(f.body)
        ensures |t[KeyOf(f.path)].body| == |f.body|
      {
        var i :| 0 <= i < |files| && files[i] == f;
        assert SameContent(s, files[i]);
        DistinctKeys(f.path, MARKER);
      }
      forall k | k in t && HasPrefix(k, prefix) && k != prefix + MARKER
        ensures exists f :: f in files && f.path != MARKER && k == prefix + f.path
      {
        assert k in Inventory(t);
        var i :| 0 <= i < |artifacts| && k == KeyOf(artifacts[i].path);
        var j := DeclaredIsLocal(files, artifacts, i);
        assert files[j] in files;
      }
    }

    lemma PayloadIsPublishable(s: Objects, t: Objects, files: seq<File>, manifest: Bytes)
      requires Retriable(s, files, manifest) && Resumable(t, files)
      requires OnlyAdded(s, t, files, |files|) && Sent(t, files, |files|)
      ensures Publishable(t, manifest)
    {
      var artifacts := Manifest(manifest).value;
      forall i | 0 <= i < |artifacts|
        ensures Recorded(t, KeyOf(artifacts[i].path)) && Matches(artifacts[i], t[KeyOf(artifacts[i].path)].body)
      {
        var j := DeclaredIsLocal(files, artifacts, i);
        assert SameContent(t, files[j]);
      }
      forall k | k in Inventory(t) && k != KeyOf(MARKER) ensures k in PayloadKeys(artifacts) {
        if k !in s {
          var i :| 0 <= i < |files| && files[i].path != MARKER && k == KeyOf(files[i].path);
          LocalIsDeclared(files, artifacts, i);
        }
      }
      forall k | k in PayloadKeys(artifacts) ensures k in Inventory(t) && k != KeyOf(MARKER) {
        var i :| 0 <= i < |artifacts| && k == KeyOf(artifacts[i].path);
        var j := DeclaredIsLocal(files, artifacts, i);
        assert SameContent(t, files[j]) && HasPrefix(k, prefix);
        DistinctKeys(artifacts[i].path, MARKER);
      }
      KeepsMarker(s, t, files);
    }

    lemma KeepsMarker(s: Objects, t: Objects, files: seq<File>)
      requires OnlyAdded(s, t, files, |files|)
      ensures KeyOf(MARKER) in t ==> KeyOf(MARKER) in s
    {
      if KeyOf(MARKER) in t && KeyOf(MARKER) !in s {
        var i :| 0 <= i < |files| && files[i].path != MARKER && KeyOf(MARKER) == KeyOf(files[i].path);
        DistinctKeys(MARKER, files[i].path);
      }
    }

    lemma DeclaredIsLocal(files: seq<File>, artifacts: seq<Artifact>, i: nat) returns (j: nat)
      requires LocalMatches(files, artifacts) && i < |artifacts|
      ensures j < |files| && files[j].path == artifacts[i].path != MARKER && Matches(artifacts[i], files[j].body)
    {
      assert artifacts[i].path in LocalPaths(files);
      j :| 0 <= j < |files| && files[j].path == artifacts[i].path;
      assert files[j] in files && artifacts[i] in artifacts;
    }

    lemma LocalIsDeclared(files: seq<File>, artifacts: seq<Artifact>, j: nat)
      requires LocalMatches(files, artifacts) && j < |files| && files[j].path != MARKER
      ensures KeyOf(files[j].path) in PayloadKeys(artifacts)
    {
      assert files[j].path in DeclaredPaths(artifacts);
      var i :| 0 <= i < |artifacts| && artifacts[i].path == files[j].path;
    }

    // ------------------------------------------------------------ deletion

    // Marker first, then the listed payload keys in ascending order.
    function DeleteOrder(listed: seq<Key>): (r: seq<Key>)
      ensures r != [] && r[0] == KeyOf(MARKER)
      ensures forall k :: k in r <==> k == KeyOf(MARKER) || k in listed
    {
      [KeyOf(MARKER)] + Others(listed)
    }

    function Others(listed: seq<Key>): (r: seq<Key>)
      ensures forall k :: k in r <==> k in listed && k != KeyOf(MARKER)
    {
      if listed == [] then [] else (if listed[0] == KeyOf(MARKER) then [] else [listed[0]]) + Others(listed[1..])
    }

    lemma {:induction false} OthersAscending(listed: seq<Key>)
      requires Ascending(listed)
      ensures Ascending(Others(listed))
    {
      if listed != [] {
        OthersAscending(listed[1..]);
        forall i | 0 <= i < |Others(listed[1..])| ensures Less(listed[0], Others(listed[1..])[i]) {
          assert Others(listed[1..])[i] in listed[1..];
        }
      }
    }

    function Without(s: Objects, keys: seq<Key>): Objects {
      map k | k in s && k !in keys :: s[k]
    }

    // before_delete is called ahead of every delete and may refuse, here at step stop.  Whatever happens, what is gone
    // is a prefix of marker-then-sorted-payload: exactly stop keys when before_delete refused.
    method DeleteBase(stop: Option<nat>) returns (r: Outcome<seq<Key>>, ghost order: seq<Key>, ghost gone: nat)
      requires History()
      modifies bucket
      ensures History() && old(bucket.trace) <= bucket.trace
      ensures gone <= |order| && bucket.objects == Without(old(bucket.objects), order[..gone])
      ensures order != [] ==> order[0] == KeyOf(MARKER) && Ascending(order[1..])
      ensures order != [] ==> forall k :: k in order <==> k == KeyOf(MARKER) || k in Inventory(old(bucket.objects))
      ensures r.Ok? ==> r.value == order && order != [] && Inventory(bucket.objects) == {}
      ensures r.Err? && r.why.CoordinationLost? ==> stop == Some(r.why.before) && gone == r.why.before
      ensures r.Err? ==> r.why.CoordinationLost? || bucket.faults > old(bucket.faults)
      ensures stop.Some? && stop.value < |order| ==> r.Err?
    {
      order, gone := [], 0;
      var listed := ListObjects(bucket, prefix);
      Unchanged(old(bucket.objects), bucket.trace, |old(bucket.trace)|);
      assert bucket.objects == old(bucket.objects);
      if listed.Raised? {
        return Err(Provider), order, gone;
      }
      var ordered := DeleteOrder(listed.value);
      OthersAscending(listed.value);
      order := ordered;
      r, gone := DeleteInOrder(ordered, stop);
      assert ordered[..|ordered|] == ordered;
    }

    method DeleteInOrder(ordered: seq<Key>, stop: Option<nat>) returns (r: Outcome<seq<Key>>, ghost gone: nat)
      requires History() && ordered != [] && ordered[0] == KeyOf(MARKER)
      modifies bucket
      ensures History() && old(bucket.trace) <= bucket.trace
      ensures gone <= |ordered| && bucket.objects == Without(old(bucket.objects), ordered[..gone])
      ensures r.Ok? ==> r.value == ordered && gone == |ordered|
      ensures r.Err? && r.why.CoordinationLost? ==> stop == Some(r.why.before) && gone == r.why.before
      ensures r.Err? ==> r.why.CoordinationLost? || bucket.faults > old(bucket.faults)
      ensures stop.Some? && stop.value < |ordered| ==> r.Err?
      ensures bucket.faults >= old(bucket.faults)
    {
      gone := 0;
      for n := 0 to |ordered|
        invariant History() && old(bucket.trace) <= bucket.trace && bucket.faults >= old(bucket.faults)
        invariant stop.Some? ==> stop.value >= n
        invariant gone == n && bucket.objects == Without(old(bucket.objects), ordered[..n])
      {
        if stop == Some(n) {
          return Err(CoordinationLost(n)), gone;
        }
        WithoutNext(old(bucket.objects), ordered, n);
        if n > 0 {
          assert ordered[..n][0] == KeyOf(MARKER);
        }
        var deleted := DeleteNext(ordered[n], n > 0);
        if ordered[n] !in bucket.objects {
          gone := n + 1;
        }
        if deleted.Raised? {
          return Err(Provider), gone;
        }
      }
      return Ok(ordered), gone;
    }

    lemma WithoutNext(s: Objects, keys: seq<Key>, n: nat)
      requires n < |keys|
      ensures Without(s, keys[..n + 1]) == Without(s, keys[..n]) - {keys[n]}
    {
      assert keys[..n + 1] == keys[..n] + [keys[n]];
    }

    // Once the marker is gone, payload may go too.
    method DeleteNext(key: Key, unpublished: bool) returns (r: Reply<()>)
      requires History() && (unpublished ==> KeyOf(MARKER) !in bucket.objects)
      requires !unpublished ==> key == KeyOf(MARKER)
      modifies bucket
      ensures History() && old(bucket.trace) <= bucket.trace
      ensures key in bucket.objects ==> bucket.objects == old(bucket.objects)
      ensures key !in bucket.objects ==> bucket.objects == old(bucket.objects) - {key}
      ensures r != Missing && (r.Returned? ==> key !in bucket.objects)
      ensures bucket.faults >= old(bucket.faults) && (r.Raised? ==> bucket.faults > old(bucket.faults))
    {
      r := bucket.Delete(key);
    }
  }

  // If there is a completion marker, it declares at least one file, none twice and not itself, and each of them is
  // there with the declared digest and size.
  ghost predicate Complete(s: Objects, prefix: string, sha: Bytes -> string, parse: Bytes -> Option<seq<Artifact>>) {
    var marker := prefix + "manifest.json";
    marker in s ==>
      && parse(s[marker].body).Some?
      && var artifacts := parse(s[marker].body).value;
         && |artifacts| > 0
         && (forall i, j :: 0 <= i < j < |artifacts| ==> artifacts[i].path != artifacts[j].path)
         && forall a :: a in artifacts ==>
              && a.path != "manifest.json"
              && prefix + a.path in s
              && sha(s[prefix + a.path].body) == a.sha256
              && (a.size.Some? ==> |s[prefix + a.path].body| == a.size.value)
  }

  lemma SafeIsComplete(b: BaseBackups, s: Objects)
    requires b.Safe(s)
    ensures Complete(s, b.prefix, b.sha, b.parse)
  {
    assert b.KeyOf(MARKER) == b.prefix + "manifest.json";
  }

  // Any sequence of uploads, direct publications and deletions by one actor, each of which may fail or be cut off at
  // any call: what the marker declares is complete at every object-store call boundary of the whole run.
  datatype Op = Upload(files: seq<File>, manifest: Bytes) | Publish(manifest: Bytes) | Remove(stop: Option<nat>)

  method AnyRun(b: BaseBackups, ops: seq<Op>)
    requires b.bucket.shared == {} && !b.bucket.stale
    requires b.Safe(b.bucket.objects) && b.bucket.trace == [b.bucket.objects]
    modifies b.bucket
    ensures forall i :: 0 <= i < |b.bucket.trace| ==> Complete(b.bucket.trace[i], b.prefix, b.sha, b.parse)
    ensures old(b.bucket.trace) <= b.bucket.trace
  {
    for n := 0 to |ops|
      invariant b.History() && old(b.bucket.trace) <= b.bucket.trace
    {
      match ops[n]
      case Upload(files, manifest) => var _ := b.UploadBase(files, manifest);
      case Publish(manifest) => var _, _ := b.PublishManifest(manifest);
      case Remove(stop) => var _, _, _ := b.DeleteBase(stop);
    }
    forall i | 0 <= i < |b.bucket.trace| ensures Complete(b.bucket.trace[i], b.prefix, b.sha, b.parse) {
      SafeIsComplete(b, b.bucket.trace[i]);
    }
  }
}
