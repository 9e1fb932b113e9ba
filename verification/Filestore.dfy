/**
 Content-addressed filestore generations: one object per distinct content, an immutable manifest per migration, and
 one pointer to the active generation.

 Whole operations follow one another (concurrent publishers are the subject of module ActivePointer); each may fail
 or be cut off at any object-store call.
 */
module Filestore {
  import opened Option
  import opened ObjectStore
  import opened FilestoreDocs
  import Json

  datatype Failure = Provider | Integrity | Conflict | OutOfScope | NotFound

  datatype Outcome<+T> = Ok(value: T) | Err(why: Failure)

  type Tree = map<string, Bytes>

  class ObjectFilestore {
    const bucket: Bucket
    const bucketName: string
    const prefix: string
    const project: string
    const environment: string
    const sha: Bytes -> string
    const floats: Json.Floats

    constructor (bucket: Bucket, bucketName: string, prefix: string, project: string, environment: string,
                 sha: Bytes -> string, floats: Json.Floats)
      ensures this.bucket == bucket && this.bucketName == bucketName && this.prefix == prefix
      ensures this.project == project && this.environment == environment && this.sha == sha && this.floats == floats
    {
      this.bucket, this.bucketName, this.prefix, this.project := bucket, bucketName, prefix, project;
      this.environment, this.sha, this.floats := environment, sha, floats;
    }

    function ObjectKey(digest: string): (r: Key)
      ensures HasPrefix(r, prefix)
    {
      prefix + "objects/" + digest
    }

    function ManifestKey(id: string): (r: Key)
      ensures HasPrefix(r, prefix)
    {
      prefix + "migrations/" + id + "/manifest.json"
    }

    function ActiveKey(): (r: Key)
      ensures HasPrefix(r, prefix)
    {
      prefix + "active.json"
    }

    lemma KeysApart(d: string, id: string)
      ensures ObjectKey(d) != ActiveKey() && ManifestKey(id) != ActiveKey() && ObjectKey(d) != ManifestKey(id)
    {
      assert ObjectKey(d)[|prefix|] == 'o' && ManifestKey(id)[|prefix|] == 'm' && ActiveKey()[|prefix|] == 'a';
    }

    lemma ObjectKeyInjective(d: string, e: string)
      ensures ObjectKey(d) == ObjectKey(e) ==> d == e
    {
      assert ObjectKey(d)[|prefix + "objects/"|..] == d && ObjectKey(e)[|prefix + "objects/"|..] == e;
    }

    lemma ManifestKeyInjective(d: string, e: string)
      ensures ManifestKey(d) == ManifestKey(e) ==> d == e
    {
      if ManifestKey(d) == ManifestKey(e) {
        assert |d| == |e|;
        var n := |prefix + "migrations/"|;
        assert ManifestKey(d)[n..n + |d|] == d && ManifestKey(e)[n..n + |e|] == e;
      }
    }

    // ------------------------------------------------------------ what is stored

    // The document of this generation and an object of the right size for each of its entries.
    ghost predicate Uploaded(s: Objects, m: Manifest) {
      && ManifestKey(m.id) in s
      && s[ManifestKey(m.id)].body == EncodeManifest(m)
      && forall i :: 0 <= i < |m.entries| ==> HasContent(s, m.entries[i])
    }

    predicate HasContent(s: Objects, e: Entry) {
      var k := ObjectKey(e.sha256);
      k in s && sha(s[k].body) == e.sha256 && |s[k].body| == e.size
    }

    predicate InScope(m: Manifest) {
      && m.project == project
      && m.environment == environment
      && (m.targetBackend == "object_mirror" || m.targetBackend == "odoo_module")
      && m.targetLocation == "s3://" + bucketName + "/" + ManifestKey(m.id)
    }

    // The active document names generation m, and m is complete.
    ghost predicate ActiveIs(s: Objects, m: Manifest) {
      && ActiveKey() in s
      && s[ActiveKey()].body == EncodePointer(project, environment, Pointer(m.id, m.inventory))
      && ValidManifest(m)
      && Uploaded(s, m)
    }

    // Every object of this adapter carries the digest of its bytes; what other prefixes of the bucket hold is no
    // matter.
    predicate Recorded(s: Objects) {
      forall k :: k in s && HasPrefix(k, prefix) ==> s[k].meta == Some(sha(s[k].body))
    }

    // Every object carries its digest, every content object holds what its name says, and the active
    // generation, if there is one, is complete.
    ghost predicate Safe(s: Objects) {
      && Recorded(s)
      && (forall d :: ObjectKey(d) in s ==> sha(s[ObjectKey(d)].body) == d)
      && (ActiveKey() in s ==> exists m :: ActiveIs(s, m))
    }

    ghost predicate History()
      reads bucket
    {
      && bucket.shared == {}
      && Safe(bucket.objects)
      && forall i :: 0 <= i < |bucket.trace| ==> Safe(bucket.trace[i])
    }

    // Content objects and manifests stay as they are; only new ones are added.
    ghost predicate Grows(s: Objects, t: Objects) {
      && (forall d :: ObjectKey(d) in s ==> ObjectKey(d) in t && t[ObjectKey(d)].body == s[ObjectKey(d)].body)
      && (forall id :: ManifestKey(id) in s ==>
          ManifestKey(id) in t && t[ManifestKey(id)].body == s[ManifestKey(id)].body)
    }

    ghost predicate NoNewManifest(s: Objects, t: Objects) {
      forall id :: ManifestKey(id) in t ==> ManifestKey(id) in s
    }

    lemma UploadedGrows(s: Objects, t: Objects, m: Manifest)
      requires Grows(s, t) && Uploaded(s, m)
      ensures Uploaded(t, m)
    {
      forall i | 0 <= i < |m.entries| ensures HasContent(t, m.entries[i]) {
        assert HasContent(s, m.entries[i]);
      }
    }

    predicate SamePointer(s: Objects, t: Objects) {
      (ActiveKey() in t <==> ActiveKey() in s) && (ActiveKey() in s ==> t[ActiveKey()] == s[ActiveKey()])
    }

    // Adding content or manifests over an unchanged pointer keeps Safe.
    lemma SafeGrows(s: Objects, t: Objects)
      requires Safe(s) && Grows(s, t)
      requires forall d :: ObjectKey(d) in t ==> sha(t[ObjectKey(d)].body) == d
      requires Recorded(t)
      requires SamePointer(s, t)
      ensures Safe(t)
    {
      if ActiveKey() in t {
        var m :| ActiveIs(s, m);
        UploadedGrows(s, t, m);
        assert ActiveIs(t, m);
      }
    }

    // ------------------------------------------------------------ verified reads

    method Head(key: Key) returns (r: Reply<Info>)
      requires History()
      modifies bucket
      ensures History() && old(bucket.trace) <= bucket.trace && bucket.objects == old(bucket.objects)
      ensures r.Returned? ==>
                key in bucket.objects && r.value == InfoOf(bucket.objects[key]) && bucket.faults == old(bucket.faults)
      ensures r.Missing? ==> key !in bucket.objects && bucket.faults == old(bucket.faults)
      ensures r.Raised? ==> bucket.faults > old(bucket.faults)
    {
      r := bucket.Head(key);
      assert bucket.objects == old(bucket.objects);
    }

    method Get(key: Key) returns (r: Reply<Bytes>)
      requires History()
      modifies bucket
      ensures History() && old(bucket.trace) <= bucket.trace && bucket.objects == old(bucket.objects)
      ensures r.Returned? ==>
                key in bucket.objects && r.value == bucket.objects[key].body && bucket.faults == old(bucket.faults)
      ensures r.Missing? ==> key !in bucket.objects && bucket.faults == old(bucket.faults)
      ensures r.Raised? ==> bucket.faults > old(bucket.faults)
    {
      r := bucket.Get(key);
      assert bucket.objects == old(bucket.objects);
    }

    method ReadVerified(key: Key, expected: Option<string>) returns (r: Outcome<Bytes>)
      requires History() && HasPrefix(key, prefix)
      modifies bucket
      ensures History() && old(bucket.trace) <= bucket.trace && bucket.objects == old(bucket.objects)
      ensures bucket.faults >= old(bucket.faults)
      ensures r.Ok? ==> key in bucket.objects && r.value == bucket.objects[key].body
                        && (expected.Some? ==> sha(r.value) == expected.value)
      ensures r.Err? ==> bucket.faults > old(bucket.faults) || key !in bucket.objects
                         || (expected.Some? && sha(bucket.objects[key].body) != expected.value)
    {
      var head := Head(key);
      if !head.Returned? {
        return Err(Provider);
      }
      var info := head.value;
      if info.meta.None? || (expected.Some? && info.meta != expected) {
        return Err(Integrity);
      }
      var body := Get(key);
      if !body.Returned? {
        return Err(Provider);
      }
      if |body.value| != info.size || sha(body.value) != (if expected.Some? then expected.value else info.meta.value) {
        return Err(Integrity);
      }
      return Ok(body.value);
    }

    // ------------------------------------------------------------ upload

    // Store the content of one entry unless it is there already.
    method UploadContent(e: Entry, body: Bytes) returns (r: Outcome<()>)
      requires History() && sha(body) == e.sha256 && |body| == e.size
      modifies bucket
      ensures History() && old(bucket.trace) <= bucket.trace && bucket.faults >= old(bucket.faults)
      ensures Grows(old(bucket.objects), bucket.objects)
      ensures SamePointer(old(bucket.objects), bucket.objects) && NoNewManifest(old(bucket.objects), bucket.objects)
      ensures old(bucket.objects.Keys) <= bucket.objects.Keys
      ensures r.Ok? ==> ObjectKey(e.sha256) in bucket.objects
      ensures r.Err? ==> bucket.faults > old(bucket.faults)
    {
      var key := ObjectKey(e.sha256);
      var head := Head(key);
      if head.Raised? {
        return Err(Provider);
      }
      if head.Returned? {
        var existing := ReadVerified(key, Some(e.sha256));
        return if existing.Ok? then Ok(()) else Err(existing.why);
      }
      var put := PutContent(e.sha256, body);
      if put.Raised? {
        return Err(Provider);
      }
      var stored := ReadVerified(key, Some(e.sha256));
      return if stored.Ok? then Ok(()) else Err(stored.why);
    }

    method PutContent(digest: string, body: Bytes) returns (r: Reply<()>)
      requires History() && sha(body) == digest && ObjectKey(digest) !in bucket.objects
      modifies bucket
      ensures History() && old(bucket.trace) <= bucket.trace && bucket.faults >= old(bucket.faults)
      ensures Grows(old(bucket.objects), bucket.objects)
      ensures SamePointer(old(bucket.objects), bucket.objects) && NoNewManifest(old(bucket.objects), bucket.objects)
      ensures old(bucket.objects.Keys) <= bucket.objects.Keys
      ensures r.Returned? ==> ObjectKey(digest) in bucket.objects
      ensures r != Missing && (r.Raised? ==> bucket.faults > old(bucket.faults))
    {
      r := bucket.Put(ObjectKey(digest), Object(body, Some(digest)));
      forall d | ObjectKey(d) in bucket.objects ensures sha(bucket.objects[ObjectKey(d)].body) == d {
        ObjectKeyInjective(d, digest);
      }
      KeysApart(digest, "");
      forall id | ManifestKey(id) in bucket.objects || ManifestKey(id) in old(bucket.objects)
        ensures ManifestKey(id) in old(bucket.objects) && ManifestKey(id) in bucket.objects
                && bucket.objects[ManifestKey(id)] == old(bucket.objects)[ManifestKey(id)]
      {
        KeysApart(digest, id);
      }
      SafeGrows(old(bucket.objects), bucket.objects);
    }

    // Check one entry against the source; content already seen or already stored is not sent again.
    method UploadEntry(tree: Tree, e: Entry, completed: set<Key>) returns (r: Outcome<()>)
      requires History() && forall k :: k in completed ==> k in bucket.objects
      modifies bucket
      ensures History() && old(bucket.trace) <= bucket.trace && bucket.faults >= old(bucket.faults)
      ensures Grows(old(bucket.objects), bucket.objects)
      ensures SamePointer(old(bucket.objects), bucket.objects) && NoNewManifest(old(bucket.objects), bucket.objects)
      ensures old(bucket.objects.Keys) <= bucket.objects.Keys
      ensures forall k :: k in completed ==> k in bucket.objects
      ensures r.Ok? ==> IsFile(e, tree) && ObjectKey(e.sha256) in bucket.objects
      ensures r.Err? && IsFile(e, tree) ==> bucket.faults > old(bucket.faults)
    {
      if e.path !in tree {
        return Err(NotFound);
      }
      if !IsFile(e, tree) {
        return Err(Conflict);
      }
      if ObjectKey(e.sha256) in completed {
        return Ok(());
      }
      r := UploadContent(e, tree[e.path]);
    }

    method UploadContents(tree: Tree, entries: seq<Entry>) returns (r: Outcome<()>)
      requires History()
      modifies bucket
      ensures History() && old(bucket.trace) <= bucket.trace && bucket.faults >= old(bucket.faults)
      ensures Grows(old(bucket.objects), bucket.objects)
      ensures SamePointer(old(bucket.objects), bucket.objects) && NoNewManifest(old(bucket.objects), bucket.objects)
      ensures r.Ok? ==> forall i :: 0 <= i < |entries| ==>
                IsFile(entries[i], tree) && ObjectKey(entries[i].sha256) in bucket.objects
      ensures r.Err? && (forall i :: 0 <= i < |entries| ==> IsFile(entries[i], tree)) ==>
                bucket.faults > old(bucket.faults)
    {
      var completed: set<Key> := {};
      for n := 0 to |entries|
        invariant History() && old(bucket.trace) <= bucket.trace && bucket.faults >= old(bucket.faults)
        invariant Grows(old(bucket.objects), bucket.objects)
        invariant SamePointer(old(bucket.objects), bucket.objects) && NoNewManifest(old(bucket.objects), bucket.objects)
        invariant forall k :: k in completed ==> k in bucket.objects
        invariant forall i :: 0 <= i < n ==> IsFile(entries[i], tree) && ObjectKey(entries[i].sha256) in completed
      {
        var sent := UploadEntry(tree, entries[n], completed);
        if sent.Err? {
          return Err(sent.why);
        }
        completed := completed + {ObjectKey(entries[n].sha256)};
      }
      return Ok(());
    }

    // No other manifest is stored under this id.
    predicate DocumentFree(s: Objects, m: Manifest) {
      ManifestKey(m.id) in s ==> s[ManifestKey(m.id)].body == EncodeManifest(m)
    }

    // Create the manifest document, or accept an identical one.
    method PutManifest(m: Manifest) returns (r: Outcome<()>)
      requires History()
      modifies bucket
      ensures History() && old(bucket.trace) <= bucket.trace && bucket.faults >= old(bucket.faults)
      ensures Grows(old(bucket.objects), bucket.objects)
      ensures SamePointer(old(bucket.objects), bucket.objects)
      ensures r.Ok? ==> ManifestKey(m.id) in bucket.objects
      ensures DocumentFree(old(bucket.objects), m) ==>
                DocumentFree(bucket.objects, m) && (r.Err? ==> bucket.faults > old(bucket.faults))
    {
      var key, payload := ManifestKey(m.id), EncodeManifest(m);
      var put := PutDocument(m.id, payload);
      if put.Returned? {
        var stored := ReadVerified(key, Some(sha(payload)));
        return if stored.Ok? then Ok(()) else Err(stored.why);
      }
      var existing := ReadVerified(key, None);
      if existing.Err? {
        return Err(Provider);
      }
      return if existing.value == payload then Ok(()) else Err(Conflict);
    }

    method PutDocument(id: string, payload: Bytes) returns (r: Reply<()>)
      requires History()
      modifies bucket
      ensures History() && old(bucket.trace) <= bucket.trace && bucket.faults >= old(bucket.faults)
      ensures Grows(old(bucket.objects), bucket.objects)
      ensures SamePointer(old(bucket.objects), bucket.objects)
      ensures ManifestKey(id) in bucket.objects && ManifestKey(id) !in old(bucket.objects) ==>
                bucket.objects[ManifestKey(id)].body == payload
      ensures r.Raised? ==> bucket.faults > old(bucket.faults)
      ensures !r.Raised? ==> ManifestKey(id) in bucket.objects
      ensures r.Returned? ==> bucket.objects[ManifestKey(id)].body == payload
    {
      r := bucket.PutIfAbsent(ManifestKey(id), Object(payload, Some(sha(payload))));
      KeysApart("", id);
      forall d | ObjectKey(d) in bucket.objects
        ensures ObjectKey(d) in old(bucket.objects) && bucket.objects[ObjectKey(d)] == old(bucket.objects)[ObjectKey(d)]
      {
        KeysApart(d, id);
      }
      SafeGrows(old(bucket.objects), bucket.objects);
    }

    // The manifest document and every content object are stored and byte-verified.
    method VerifyInventory(m: Manifest) returns (r: Outcome<()>)
      requires History()
      modifies bucket
      ensures History() && old(bucket.trace) <= bucket.trace && bucket.objects == old(bucket.objects)
      ensures bucket.faults >= old(bucket.faults)
      ensures r.Ok? ==> InScope(m) && Uploaded(bucket.objects, m)
      ensures r.Err? && InScope(m) && Uploaded(bucket.objects, m) ==> bucket.faults > old(bucket.faults)
    {
      if !InScope(m) {
        return Err(OutOfScope);
      }
      var document := ReadVerified(ManifestKey(m.id), None);
      if document.Err? {
        return Err(document.why);
      }
      if document.value != EncodeManifest(m) {
        return Err(Conflict);
      }
      for n := 0 to |m.entries|
        invariant History() && old(bucket.trace) <= bucket.trace && bucket.objects == old(bucket.objects)
        invariant bucket.faults >= old(bucket.faults)
        invariant forall i :: 0 <= i < n ==> HasContent(bucket.objects, m.entries[i])
      {
        assert Uploaded(bucket.objects, m) ==> HasContent(bucket.objects, m.entries[n]);
        var content := ReadVerified(ObjectKey(m.entries[n].sha256), Some(m.entries[n].sha256));
        if content.Err? {
          return Err(content.why);
        }
        if |content.value| != m.entries[n].size {
          return Err(Integrity);
        }
      }
      return Ok(());
    }

    method UploadInventory(tree: Tree, m: Manifest) returns (r: Outcome<()>)
      requires History()
      modifies bucket
      ensures History() && old(bucket.trace) <= bucket.trace && bucket.faults >= old(bucket.faults)
      ensures Grows(old(bucket.objects), bucket.objects) && SamePointer(old(bucket.objects), bucket.objects)
      ensures r.Ok? ==> InScope(m) && Uploaded(bucket.objects, m) && Describes(m, tree)
      ensures r.Err? && InScope(m) && Describes(m, tree) && DocumentFree(old(bucket.objects), m) && Injective() ==>
                bucket.faults > old(bucket.faults)
    {
      if !InScope(m) {
        return Err(OutOfScope);
      }
      var contents := UploadContents(tree, m.entries);
      if contents.Err? {
        return Err(contents.why);
      }
      var document := PutManifest(m);
      if document.Err? {
        return Err(document.why);
      }
      if Injective() && DocumentFree(bucket.objects, m) {
        StoredIsUploaded(bucket.objects, m, tree);
      }
      r := VerifyInventory(m);
    }

    // Two files with one digest are one file.
    ghost predicate Injective() {
      forall a, b :: sha(a) == sha(b) ==> a == b
    }

    lemma StoredIsUploaded(s: Objects, m: Manifest, tree: Tree)
      requires Safe(s) && Injective() && Describes(m, tree) && DocumentFree(s, m) && ManifestKey(m.id) in s
      requires forall i :: 0 <= i < |m.entries| ==> ObjectKey(m.entries[i].sha256) in s
      ensures Uploaded(s, m)
    {
      forall i | 0 <= i < |m.entries| ensures HasContent(s, m.entries[i]) {
        var e := m.entries[i];
        assert IsFile(e, tree) && sha(s[ObjectKey(e.sha256)].body) == e.sha256;
      }
    }

    predicate IsFile(e: Entry, tree: Tree) {
      e.path in tree && sha(tree[e.path]) == e.sha256 && |tree[e.path]| == e.size
    }

    // Every entry of m is a file of the tree with the inventoried digest and size.
    predicate Describes(m: Manifest, tree: Tree) {
      forall i :: 0 <= i < |m.entries| ==> IsFile(m.entries[i], tree)
    }

    // ------------------------------------------------------------ download

    function PathsOf(entries: seq<Entry>): (r: set<string>)
      ensures forall p :: p in r <==> exists i :: 0 <= i < |entries| && entries[i].path == p
    {
      set i | 0 <= i < |entries| :: entries[i].path
    }

    // A downloaded tree has exactly the entry paths, each with content of the inventoried digest and size; only a
    // failed call or a generation that is not there can stop it.
    method DownloadInventory(m: Manifest) returns (r: Outcome<Tree>)
      requires History() && ValidManifest(m)
      modifies bucket
      ensures History() && old(bucket.trace) <= bucket.trace && bucket.faults >= old(bucket.faults)
                && bucket.objects == old(bucket.objects)
      ensures r.Ok? ==> r.value.Keys == PathsOf(m.entries) && Describes(m, r.value)
      ensures r.Err? && InScope(m) && Uploaded(bucket.objects, m) ==> bucket.faults > old(bucket.faults)
    {
      var verified := VerifyInventory(m);
      if verified.Err? {
        return Err(verified.why);
      }
      var tree: Tree := map[];
      for n := 0 to |m.entries|
        invariant History() && old(bucket.trace) <= bucket.trace && bucket.objects == old(bucket.objects)
        invariant bucket.faults >= old(bucket.faults)
        invariant Fetched(m, n, tree)
      {
        assert HasContent(bucket.objects, m.entries[n]);
        var content := FetchEntry(m.entries[n]);
        if content.Err? {
          return Err(content.why);
        }
        FetchedNext(m, n, tree, content.value);
        tree := tree[m.entries[n].path := content.value];
      }
      assert m.entries[..|m.entries|] == m.entries;
      return Ok(tree);
    }

    // The first n entries are in the tree, and nothing else.
    ghost predicate Fetched(m: Manifest, n: nat, tree: Tree)
      requires n <= |m.entries|
    {
      tree.Keys == PathsOf(m.entries[..n]) && forall i :: 0 <= i < n ==> IsFile(m.entries[i], tree)
    }

    lemma FetchedNext(m: Manifest, n: nat, tree: Tree, body: Bytes)
      requires ValidManifest(m) && n < |m.entries| && Fetched(m, n, tree)
      requires sha(body) == m.entries[n].sha256 && |body| == m.entries[n].size
      ensures Fetched(m, n + 1, tree[m.entries[n].path := body])
    {
      assert m.entries[..n + 1] == m.entries[..n] + [m.entries[n]];
      forall i | 0 <= i < n ensures IsFile(m.entries[i], tree[m.entries[n].path := body]) {
        assert m.entries[i].path != m.entries[n].path;
      }
    }

    method FetchEntry(e: Entry) returns (r: Outcome<Bytes>)
      requires History()
      modifies bucket
      ensures History() && old(bucket.trace) <= bucket.trace && bucket.objects == old(bucket.objects)
      ensures bucket.faults >= old(bucket.faults)
      ensures r.Ok? ==> sha(r.value) == e.sha256 && |r.value| == e.size
      ensures r.Err? && HasContent(bucket.objects, e) ==> bucket.faults > old(bucket.faults)
    {
      var content := ReadVerified(ObjectKey(e.sha256), Some(e.sha256));
      if content.Ok? && |content.value| != e.size {
        return Err(Integrity);
      }
      return content;
    }

    // Under an injective hash a download is the uploaded tree, restricted to the inventory, however many paths share
    // one object.
    lemma DownloadIsSource(m: Manifest, source: Tree, got: Tree)
      requires Injective()
      requires Describes(m, source) && got.Keys == PathsOf(m.entries) && Describes(m, got)
      ensures got == map p | p in source && p in got :: source[p]
    {
      forall p | p in got ensures p in source && got[p] == source[p] {
        var i :| 0 <= i < |m.entries| && m.entries[i].path == p;
        assert IsFile(m.entries[i], got) && IsFile(m.entries[i], source);
        assert sha(got[p]) == sha(source[p]);
      }
    }

    // ------------------------------------------------------------ the active pointer

    // What a reader makes of the stored pointer.
    ghost predicate ReadBack(s: Objects, read: Option<Pointer>) {
      match read
      case None => ActiveKey() !in s
      case Some(p) => exists m :: ActiveIs(s, m) && p == Pointer(m.id, m.inventory)
    }

    // None when no pointer is stored.
    method ReadActive() returns (r: Outcome<Option<Pointer>>)
      requires History()
      modifies bucket
      ensures History() && old(bucket.trace) <= bucket.trace && bucket.objects == old(bucket.objects)
      ensures bucket.faults >= old(bucket.faults)
      ensures r.Ok? ==> ReadBack(bucket.objects, r.value)
      ensures r.Err? ==> bucket.faults > old(bucket.faults)
    {
      var head := Head(ActiveKey());
      if head.Raised? {
        return Err(Provider);
      }
      if head.Missing? {
        return Ok(None);
      }
      var payload := ReadVerified(ActiveKey(), None);
      if payload.Err? {
        return Err(payload.why);
      }
      ghost var m :| ActiveIs(bucket.objects, m);
      PointerRoundTrip(floats, project, environment, Pointer(m.id, m.inventory));
      var pointer := DecodePointer(floats, project, environment, payload.value);
      if pointer.None? {
        return Err(Conflict);
      }
      return Ok(pointer);
    }

    // The pointer as a value; ActiveIs fixes it because the document can be read back.
    ghost predicate Names(s: Objects, p: Pointer) {
      ActiveKey() in s && DecodePointer(floats, project, environment, s[ActiveKey()].body) == Some(p)
    }

    lemma ActiveNames(s: Objects, m: Manifest)
      requires ActiveIs(s, m)
      ensures Names(s, Pointer(m.id, m.inventory))
    {
      PointerRoundTrip(floats, project, environment, Pointer(m.id, m.inventory));
    }

    // The pointer is where the caller expects it, or names m already.
    ghost predicate Movable(s: Objects, m: Manifest, expected: Option<string>) {
      if ActiveKey() !in s then expected.None?
      else exists p :: Names(s, p) && (expected == Some(p.id) || p == Pointer(m.id, m.inventory))
    }

    // The checks before the pointer is moved: the generation is whole; and what the pointer is now.
    method CheckPublication(m: Manifest) returns (r: Outcome<Option<Pointer>>)
      requires History()
      modifies bucket
      ensures History() && old(bucket.trace) <= bucket.trace && bucket.objects == old(bucket.objects)
      ensures bucket.faults >= old(bucket.faults)
      ensures r.Ok? ==> InScope(m) && Uploaded(bucket.objects, m) && ReadBack(bucket.objects, r.value)
      ensures r.Err? && InScope(m) && Uploaded(bucket.objects, m) ==> bucket.faults > old(bucket.faults)
    {
      var verified := VerifyInventory(m);
      if verified.Err? {
        return Err(verified.why);
      }
      r := ReadActive();
    }

    // Move the pointer to a verified generation if the expected predecessor is still active.
    method PublishActive(m: Manifest, expected: Option<string>) returns (r: Outcome<Pointer>)
      requires History() && ValidManifest(m)
      modifies bucket
      ensures History() && old(bucket.trace) <= bucket.trace && bucket.faults >= old(bucket.faults)
      ensures Grows(old(bucket.objects), bucket.objects)
      ensures r.Ok? ==> r.value == Pointer(m.id, m.inventory) && ActiveIs(bucket.objects, m)
      ensures !SamePointer(old(bucket.objects), bucket.objects) ==>
                && ActiveIs(bucket.objects, m)
                && match expected
                   case None => ActiveKey() !in old(bucket.objects)
                   case Some(id) => exists p :: Names(old(bucket.objects), p) && p.id == id
      ensures r.Err? && InScope(m) && Uploaded(old(bucket.objects), m) && Movable(old(bucket.objects), m, expected) ==>
                bucket.faults > old(bucket.faults)
    {
      var current := CheckPublication(m);
      if current.Err? {
        return Err(current.why);
      }
      var pointer := Pointer(m.id, m.inventory);
      ReadBackDecides(bucket.objects, m, expected, current.value);
      if current.value == Some(pointer) {
        SamePointerIsActive(bucket.objects, m);
        return Ok(pointer);
      }
      if IdOf(current.value) != expected {
        return Err(Conflict);
      }
      r := SwapPointer(m, current.value);
    }

    function IdOf(current: Option<Pointer>): Option<string> {
      match current
      case None => None
      case Some(p) => Some(p.id)
    }

    lemma ReadBackDecides(s: Objects, m: Manifest, expected: Option<string>, current: Option<Pointer>)
      requires ReadBack(s, current)
      ensures current.Some? ==> Names(s, current.value)
      ensures Movable(s, m, expected) <==> IdOf(current) == expected || current == Some(Pointer(m.id, m.inventory))
    {
      if current.Some? {
        var n :| ActiveIs(s, n) && current.value == Pointer(n.id, n.inventory);
        ActiveNames(s, n);
      }
    }

    // Write the pointer, and read back what is stored whether or not the write reported success.
    method SwapPointer(m: Manifest, current: Option<Pointer>) returns (r: Outcome<Pointer>)
      requires History() && ValidManifest(m) && Uploaded(bucket.objects, m)
      requires current.None? ==> ActiveKey() !in bucket.objects
      requires current.Some? ==> ActiveKey() in bucket.objects
      modifies bucket
      ensures History() && old(bucket.trace) <= bucket.trace && bucket.faults >= old(bucket.faults)
      ensures Grows(old(bucket.objects), bucket.objects)
      ensures r.Ok? ==> r.value == Pointer(m.id, m.inventory) && ActiveIs(bucket.objects, m)
      ensures SamePointer(old(bucket.objects), bucket.objects) || ActiveIs(bucket.objects, m)
      ensures r.Err? ==> bucket.faults > old(bucket.faults)
    {
      var pointer := Pointer(m.id, m.inventory);
      var put := PutPointer(m, current);
      var published := ReadActive();
      if published.Err? {
        return Err(Provider);
      }
      if published.value == Some(pointer) {
        SamePointerIsActive(bucket.objects, m);
        return Ok(pointer);
      }
      if put.Returned? {
        StoredPointerIsRead(bucket.objects, m, published.value);
      }
      return Err(if put.Returned? then Provider else Conflict);
    }

    lemma StoredPointerIsRead(s: Objects, m: Manifest, read: Option<Pointer>)
      requires ActiveIs(s, m)
      requires ReadBack(s, read)
      ensures read.Some? ==> read.value == Pointer(m.id, m.inventory)
    {
      ActiveNames(s, m);
      if read.Some? {
        var n :| ActiveIs(s, n) && read.value == Pointer(n.id, n.inventory);
        ActiveNames(s, n);
      }
    }

    // A pointer with m's identity, over stored m, names m.
    lemma SamePointerIsActive(s: Objects, m: Manifest)
      requires ValidManifest(m) && Uploaded(s, m)
      requires exists n :: ActiveIs(s, n) && Pointer(m.id, m.inventory) == Pointer(n.id, n.inventory)
      ensures ActiveIs(s, m)
    {
    }

    // The conditional write: If-None-Match when no pointer was read, If-Match on the tag of the one that was, which is
    // still the stored one because no other publisher is at work.
    method PutPointer(m: Manifest, current: Option<Pointer>) returns (r: Reply<()>)
      requires History() && ValidManifest(m) && Uploaded(bucket.objects, m)
      requires current.None? ==> ActiveKey() !in bucket.objects
      requires current.Some? ==> ActiveKey() in bucket.objects
      modifies bucket
      ensures History() && old(bucket.trace) <= bucket.trace && bucket.faults >= old(bucket.faults)
      ensures Grows(old(bucket.objects), bucket.objects) && Uploaded(bucket.objects, m)
      ensures SamePointer(old(bucket.objects), bucket.objects) || ActiveIs(bucket.objects, m)
      ensures if r.Returned? then ActiveIs(bucket.objects, m) else bucket.faults > old(bucket.faults)
    {
      r := WritePointer(Pointer(m.id, m.inventory), current);
      PointerWritten(old(bucket.objects), bucket.objects, m);
    }

    method WritePointer(p: Pointer, current: Option<Pointer>) returns (r: Reply<()>)
      requires bucket.shared == {}
      requires current.None? ==> ActiveKey() !in bucket.objects
      requires current.Some? ==> ActiveKey() in bucket.objects
      modifies bucket
      ensures bucket.trace == old(bucket.trace) + [bucket.objects] && bucket.faults >= old(bucket.faults)
      ensures OnlyAt(old(bucket.objects), bucket.objects, Some(ActiveKey()), {})
      ensures SamePointer(old(bucket.objects), bucket.objects) || Written(bucket.objects, p)
      ensures if r.Returned? then Written(bucket.objects, p) else bucket.faults > old(bucket.faults)
    {
      var body := EncodePointer(project, environment, p);
      if current.None? {
        r := bucket.PutIfAbsent(ActiveKey(), Object(body, Some(sha(body))));
      } else {
        r := bucket.PutIfMatch(ActiveKey(), bucket.objects[ActiveKey()].body, Object(body, Some(sha(body))));
      }
    }

    predicate Written(s: Objects, p: Pointer) {
      && ActiveKey() in s
      && s[ActiveKey()].body == EncodePointer(project, environment, p)
      && s[ActiveKey()].meta == Some(sha(s[ActiveKey()].body))
    }

    lemma PointerWritten(s: Objects, t: Objects, m: Manifest)
      requires Safe(s) && ValidManifest(m) && Uploaded(s, m) && OnlyAt(s, t, Some(ActiveKey()), {})
      requires SamePointer(s, t) || Written(t, Pointer(m.id, m.inventory))
      ensures Safe(t) && Grows(s, t) && Uploaded(t, m)
      ensures SamePointer(s, t) || ActiveIs(t, m)
      ensures Written(t, Pointer(m.id, m.inventory)) ==> ActiveIs(t, m)
    {
      PointerWriteGrows(s, t);
      UploadedGrows(s, t, m);
      if SamePointer(s, t) {
        SafeGrows(s, t);
      } else {
        assert ActiveIs(t, m);
      }
    }

    lemma PointerWriteGrows(s: Objects, t: Objects)
      requires Safe(s) && OnlyAt(s, t, Some(ActiveKey()), {})
      ensures Grows(s, t) && forall d :: ObjectKey(d) in t ==> sha(t[ObjectKey(d)].body) == d
    {
      forall d ensures ObjectKey(d) != ActiveKey() { KeysApart(d, ""); }
      forall id ensures ManifestKey(id) != ActiveKey() { KeysApart("", id); }
    }

    // Delete the document of an inactive generation; content objects stay.
    method DeleteManifest(id: string) returns (r: Outcome<()>)
      requires History()
      modifies bucket
      ensures History() && old(bucket.trace) <= bucket.trace && bucket.faults >= old(bucket.faults)
      ensures forall m :: Uploaded(old(bucket.objects), m) && m.id != id ==> Uploaded(bucket.objects, m)
      ensures SamePointer(old(bucket.objects), bucket.objects)
      ensures r.Ok? ==> ManifestKey(id) !in bucket.objects
      ensures r.Err? ==> bucket.faults > old(bucket.faults) || exists p :: Names(old(bucket.objects), p) && p.id == id
    {
      var active := ReadActive();
      if active.Err? {
        return Err(active.why);
      }
      if active.value.Some? && active.value.value.id == id {
        ghost var m :| ActiveIs(bucket.objects, m) && active.value.value == Pointer(m.id, m.inventory);
        ActiveNames(bucket.objects, m);
        return Err(Conflict);
      }
      var deleted := RemoveManifest(id);
      return if deleted.Returned? then Ok(()) else Err(Provider);
    }

    method RemoveManifest(id: string) returns (r: Reply<()>)
      requires History()
      requires ActiveKey() in bucket.objects ==> exists m :: ActiveIs(bucket.objects, m) && m.id != id
      modifies bucket
      ensures History() && old(bucket.trace) <= bucket.trace && bucket.faults >= old(bucket.faults) && r != Missing
      ensures forall m :: Uploaded(old(bucket.objects), m) && m.id != id ==> Uploaded(bucket.objects, m)
      ensures SamePointer(old(bucket.objects), bucket.objects)
      ensures if r.Returned? then ManifestKey(id) !in bucket.objects else bucket.faults > old(bucket.faults)
    {
      r := bucket.Delete(ManifestKey(id));
      forall m | Uploaded(old(bucket.objects), m) && m.id != id ensures Uploaded(bucket.objects, m) {
        RemovalSpares(old(bucket.objects), bucket.objects, m, id);
      }
      KeysApart("", id);
      forall d ensures ObjectKey(d) != ManifestKey(id) { KeysApart(d, id); }
      if ActiveKey() in bucket.objects {
        ghost var m :| ActiveIs(old(bucket.objects), m) && m.id != id;
        assert ActiveIs(bucket.objects, m);
      }
    }

    lemma RemovalSpares(s: Objects, t: Objects, m: Manifest, id: string)
      requires Uploaded(s, m) && m.id != id && OnlyAt(s, t, Some(ManifestKey(id)), {})
      ensures Uploaded(t, m)
    {
      ManifestKeyInjective(m.id, id);
      forall i | 0 <= i < |m.entries| ensures HasContent(t, m.entries[i]) {
        assert HasContent(s, m.entries[i]);
        KeysApart(m.entries[i].sha256, id);
      }
    }
  }

  // ---------------------------------------------------------------- whole runs

  datatype Op =
    | Upload(tree: Tree, m: Manifest)
    | Publish(m: Manifest, expected: Option<string>)
    | Delete(id: string)
    | Download(m: Manifest)

  // The generation is meant for this project, environment and place.
  predicate Addressed(m: Manifest, project: string, environment: string, base: string) {
    && m.project == project && m.environment == environment
    && m.targetBackend in {"object_mirror", "odoo_module"}
    && m.targetLocation == base + "migrations/" + m.id + "/manifest.json"
  }

  // Every entry is a file of the tree, with its digest and size.
  ghost predicate Inventoried(m: Manifest, tree: Tree, sha: Bytes -> string) {
    forall e :: e in m.entries ==> e.path in tree && sha(tree[e.path]) == e.sha256 && |tree[e.path]| == e.size
  }

  // The document of the generation is stored, and for every entry an object of its digest and size.
  ghost predicate Whole(s: Objects, m: Manifest, prefix: string, sha: Bytes -> string) {
    && prefix + "migrations/" + m.id + "/manifest.json" in s
    && s[prefix + "migrations/" + m.id + "/manifest.json"].body == EncodeManifest(m)
    && forall e :: e in m.entries ==>
         && prefix + "objects/" + e.sha256 in s
         && sha(s[prefix + "objects/" + e.sha256].body) == e.sha256
         && |s[prefix + "objects/" + e.sha256].body| == e.size
  }

  ghost predicate Activates(s: Objects, m: Manifest, f: ObjectFilestore) {
    && f.prefix + "active.json" in s
    && s[f.prefix + "active.json"].body == EncodePointer(f.project, f.environment, Pointer(m.id, m.inventory))
    && Whole(s, m, f.prefix, f.sha)
  }

  // If a generation is active it is whole.
  ghost predicate ActiveIsWhole(s: Objects, f: ObjectFilestore) {
    f.prefix + "active.json" in s ==> exists m :: Activates(s, m, f)
  }

  lemma UploadedIsWhole(f: ObjectFilestore, s: Objects, m: Manifest)
    requires f.Uploaded(s, m)
    ensures Whole(s, m, f.prefix, f.sha)
  {
    forall e | e in m.entries ensures f.HasContent(s, e) && f.ObjectKey(e.sha256) == f.prefix + "objects/" + e.sha256 {
      var i :| 0 <= i < |m.entries| && m.entries[i] == e;
      assert f.HasContent(s, m.entries[i]);
    }
    assert f.ManifestKey(m.id) == f.prefix + "migrations/" + m.id + "/manifest.json";
  }

  lemma SafeIsWhole(f: ObjectFilestore, s: Objects)
    requires f.Safe(s)
    ensures ActiveIsWhole(s, f)
  {
    assert f.ActiveKey() == f.prefix + "active.json";
    if f.ActiveKey() in s {
      var m :| f.ActiveIs(s, m);
      UploadedIsWhole(f, s, m);
      assert Activates(s, m, f);
    }
  }

  lemma AllWhole(f: ObjectFilestore)
    requires f.History()
    ensures forall i :: 0 <= i < |f.bucket.trace| ==> ActiveIsWhole(f.bucket.trace[i], f)
  {
    forall i | 0 <= i < |f.bucket.trace| ensures ActiveIsWhole(f.bucket.trace[i], f) {
      SafeIsWhole(f, f.bucket.trace[i]);
    }
  }

  lemma ScopeIsAddress(f: ObjectFilestore, m: Manifest)
    ensures f.InScope(m) <==> Addressed(m, f.project, f.environment, "s3://" + f.bucketName + "/" + f.prefix)
  {
    assert "s3://" + f.bucketName + "/" + f.ManifestKey(m.id) ==
        "s3://" + f.bucketName + "/" + f.prefix + "migrations/" + m.id + "/manifest.json";
  }

  lemma DescribesIsInventory(f: ObjectFilestore, m: Manifest, tree: Tree)
    ensures f.Describes(m, tree) <==> Inventoried(m, tree, f.sha)
  {
    if f.Describes(m, tree) {
      forall e | e in m.entries ensures f.IsFile(e, tree) {
        var i :| 0 <= i < |m.entries| && m.entries[i] == e;
        assert f.IsFile(m.entries[i], tree);
      }
    }
    if Inventoried(m, tree, f.sha) {
      forall i | 0 <= i < |m.entries| ensures f.IsFile(m.entries[i], tree) {
        assert m.entries[i] in m.entries;
      }
    }
  }

  // After a successful upload, which needs a generation meant for this place that describes the tree, and any later
  // operations that do not delete that manifest, a download gives back exactly the inventoried files of the uploaded
  // tree, and it does so unless some call raised.  Throughout, the active generation is whole at every call boundary.
  method RoundTrip(f: ObjectFilestore, tree: Tree, m: Manifest, ops: seq<Op>) returns (stored: bool, got: Option<Tree>)
    requires f.bucket.shared == {} && f.Safe(f.bucket.objects) && f.bucket.trace == [f.bucket.objects]
    requires ValidManifest(m) && f.Injective()
    requires forall i :: 0 <= i < |ops| ==>
               (ops[i].Delete? ==> ops[i].id != m.id)
                   && (ops[i].Publish? || ops[i].Download? ==> ValidManifest(ops[i].m))
    modifies f.bucket
    ensures forall i :: 0 <= i < |f.bucket.trace| ==> ActiveIsWhole(f.bucket.trace[i], f)
    ensures stored ==>
              && Addressed(m, f.project, f.environment, "s3://" + f.bucketName + "/" + f.prefix)
              && Inventoried(m, tree, f.sha) && Whole(f.bucket.objects, m, f.prefix, f.sha)
    ensures got.Some? ==> stored && got.value == map p | p in tree && p in f.PathsOf(m.entries) :: tree[p]
    ensures stored && f.bucket.faults == old(f.bucket.faults) ==> got.Some?
    ensures !stored && Addressed(m, f.project, f.environment, "s3://" + f.bucketName + "/" + f.prefix)
            && Inventoried(m, tree, f.sha) && f.DocumentFree(old(f.bucket.objects), m) ==>
              f.bucket.faults > old(f.bucket.faults)
  {
    ScopeIsAddress(f, m);
    DescribesIsInventory(f, m, tree);
    var uploaded := f.UploadInventory(tree, m);
    for n := 0 to |ops|
      invariant f.History() && f.bucket.faults >= old(f.bucket.faults)
      invariant uploaded.Err? && f.InScope(m) && f.Describes(m, tree) && f.DocumentFree(old(f.bucket.objects), m) ==>
                  f.bucket.faults > old(f.bucket.faults)
      invariant uploaded.Ok? ==> f.InScope(m) && f.Describes(m, tree) && f.Uploaded(f.bucket.objects, m)
    {
      ghost var before := f.bucket.objects;
      match ops[n] {
        case Upload(other, o) => var _ := f.UploadInventory(other, o);
        case Publish(o, expected) => var _ := f.PublishActive(o, expected);
        case Delete(id) => var _ := f.DeleteManifest(id);
        case Download(o) => var _ := f.DownloadInventory(o);
      }
      if uploaded.Ok? && !ops[n].Delete? {
        f.UploadedGrows(before, f.bucket.objects, m);
      }
    }
    if uploaded.Err? {
      AllWhole(f);
      return false, None;
    }
    var downloaded := f.DownloadInventory(m);
    AllWhole(f);
    UploadedIsWhole(f, f.bucket.objects, m);
    if downloaded.Err? {
      return true, None;
    }
    f.DownloadIsSource(m, tree, downloaded.value);
    return true, Some(downloaded.value);
  }
}
