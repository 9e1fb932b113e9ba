/**
 The two JSON documents of the object filestore: a generation manifest and the pointer to the active generation.
 */
module FilestoreDocs {
  import opened Option
  import opened Text
  import Utf8
  import Json
  import Codec = CoordinationCodec

  type Bytes = Codec.Bytes

  datatype Entry = Entry(path: string, sha256: string, size: nat)

  datatype Manifest = Manifest(
    id: string,
    project: string,
    environment: string,
    sourceBackend: string,
    targetBackend: string,
    targetLocation: string,
    moduleName: Option<string>,
    previousActive: Option<string>,
    inventory: string,
    totalSize: nat,
    entries: seq<Entry>)

  datatype Pointer = Pointer(id: string, inventory: string)

  predicate IsMigrationId(s: string) {
    1 <= |s| <= 128 && Codec.IsComponent(s)
  }

  // What the manifest model guarantees about identities and paths.
  predicate ValidManifest(m: Manifest) {
    && IsMigrationId(m.id)
    && Codec.IsLowerHex(m.inventory, 64)
    && forall i, j :: 0 <= i < j < |m.entries| ==> m.entries[i].path != m.entries[j].path
  }

  function Maybe(s: Option<string>): Json.Json {
    match s case None => Json.Null case Some(v) => Json.String(v)
  }

  // ---------------------------------------------------------------- generation manifests

  function EntryJson(e: Entry): Json.Json {
    Json.Object([ Json.Member("path", Json.String(e.path)),
                  Json.Member("sha256", Json.String(e.sha256)),
                  Json.Member("size", Json.Int(e.size)) ])
  }

  function EntryItems(entries: seq<Entry>): (r: seq<Json.Json>)
    ensures |r| == |entries|
    ensures forall i :: 0 <= i < |entries| ==> r[i] == EntryJson(entries[i])
  {
    seq(|entries|, i requires 0 <= i < |entries| => EntryJson(entries[i]))
  }

  function ManifestMembers(m: Manifest): seq<Json.Member> {
    [ Json.Member("entries", Json.Array(EntryItems(m.entries))),
      Json.Member("environment", Json.String(m.environment)),
      Json.Member("inventory_sha256", Json.String(m.inventory)),
      Json.Member("migration_id", Json.String(m.id)),
      Json.Member("module_name", Maybe(m.moduleName)),
      Json.Member("previous_active_migration_id", Maybe(m.previousActive)),
      Json.Member("project", Json.String(m.project)),
      Json.Member("schema_version", Json.Int(1)),
      Json.Member("source_backend", Json.String(m.sourceBackend)),
      Json.Member("target_backend", Json.String(m.targetBackend)),
      Json.Member("total_size", Json.Int(m.totalSize)) ]
  }

  const MANIFEST_FIELDS := ["entries", "environment", "inventory_sha256", "migration_id", "module_name",
                            "previous_active_migration_id", "project", "schema_version", "source_backend",
                            "target_backend", "total_size"]

  function EncodeManifest(m: Manifest): Bytes {
    Codec.CanonicalBytes(Json.Object(ManifestMembers(m)))
  }

  lemma EntryCanonical(e: Entry)
    ensures Json.Canonical(EntryJson(e))
  {
    assert Less("sha256", "size");
    NeighboursAscending(["path", "sha256", "size"]);
    assert Json.Keys(EntryJson(e).members) == ["path", "sha256", "size"];
  }

  lemma FirstFieldsAscending()
    ensures Ascending(MANIFEST_FIELDS[..6])
  {
    assert Less("entries", "environment") && Less("migration_id", "module_name");
    NeighboursAscending(MANIFEST_FIELDS[..6]);
  }

  lemma LastFieldsAscending()
    ensures Ascending(MANIFEST_FIELDS[5..])
  {
    assert Less("previous_active_migration_id", "project") && Less("schema_version", "source_backend");
    assert Less("target_backend", "total_size");
    NeighboursAscending(MANIFEST_FIELDS[5..]);
  }

  lemma ManifestFieldsAscending()
    ensures Ascending(MANIFEST_FIELDS)
  {
    FirstFieldsAscending();
    LastFieldsAscending();
    AscendingOverlap(MANIFEST_FIELDS, 5);
  }

  lemma ManifestCanonical(m: Manifest)
    ensures Json.Canonical(Json.Object(ManifestMembers(m)))
  {
    var ms := ManifestMembers(m);
    ManifestFieldsAscending();
    assert Json.Keys(ms) == MANIFEST_FIELDS;
    forall i | 0 <= i < |m.entries| ensures Json.Canonical(EntryItems(m.entries)[i]) {
      EntryCanonical(m.entries[i]);
    }
    assert Json.Canonical(ms[0].value);
  }

  // Each field of the document under its name.
  lemma ManifestFields(m: Manifest)
    ensures var ms := ManifestMembers(m);
            && Json.Get(ms, "migration_id") == Some(Json.String(m.id))
            && Json.Get(ms, "project") == Some(Json.String(m.project))
            && Json.Get(ms, "environment") == Some(Json.String(m.environment))
            && Json.Get(ms, "source_backend") == Some(Json.String(m.sourceBackend))
            && Json.Get(ms, "target_backend") == Some(Json.String(m.targetBackend))
            && Json.Get(ms, "inventory_sha256") == Some(Json.String(m.inventory))
            && Json.Get(ms, "total_size") == Some(Json.Int(m.totalSize))
            && Json.Get(ms, "schema_version") == Some(Json.Int(1))
            && Json.Get(ms, "module_name") ==
               Some(if m.moduleName.None? then Json.Null else Json.String(m.moduleName.value))
            && Json.Get(ms, "previous_active_migration_id") ==
               Some(if m.previousActive.None? then Json.Null else Json.String(m.previousActive.value))
  {
    ManifestFieldsRead(m);
    assert MANIFEST_FIELDS[1] == "environment" && MANIFEST_FIELDS[2] == "inventory_sha256"
        && MANIFEST_FIELDS[3] == "migration_id" && MANIFEST_FIELDS[4] == "module_name";
    assert MANIFEST_FIELDS[5] == "previous_active_migration_id" && MANIFEST_FIELDS[6] == "project"
        && MANIFEST_FIELDS[7] == "schema_version" && MANIFEST_FIELDS[8] == "source_backend";
    assert MANIFEST_FIELDS[9] == "target_backend" && MANIFEST_FIELDS[10] == "total_size";
  }

  lemma ManifestFieldsRead(m: Manifest)
    ensures var ms := ManifestMembers(m);
            forall i :: 0 <= i < 11 ==> Json.Get(ms, MANIFEST_FIELDS[i]) == Some(ms[i].value)
  {
    var ms := ManifestMembers(m);
    ManifestFieldsAscending();
    assert Json.Keys(ms) == MANIFEST_FIELDS;
    forall i | 0 <= i < 11 ensures Json.Get(ms, MANIFEST_FIELDS[i]) == Some(ms[i].value) {
      assert Json.Keys(ms)[i] == ms[i].key;
      Json.GetAt(ms, i);
    }
  }

  lemma EntryFields(e: Entry)
    ensures var ms := EntryJson(e).members;
            && Json.Get(ms, "path") == Some(Json.String(e.path))
            && Json.Get(ms, "sha256") == Some(Json.String(e.sha256))
            && Json.Get(ms, "size") == Some(Json.Int(e.size))
  {
    var ms := EntryJson(e).members;
    EntryCanonical(e);
    Json.GetAt(ms, 0);
    Json.GetAt(ms, 1);
    Json.GetAt(ms, 2);
  }

  // Printing loses nothing.
  lemma CanonicalInjective(a: Json.Json, b: Json.Json)
    requires Json.Canonical(a) && Json.Canonical(b) && Codec.CanonicalBytes(a) == Codec.CanonicalBytes(b)
    ensures a == b
  {
    var f := Json.Floats(s => s, (s, n) => false, s => s);
    Utf8.EncodeInjective(Json.Print(a) + "\n", Json.Print(b) + "\n");
    Json.LoadsPrinted(f, a);
    Json.LoadsPrinted(f, b);
  }

  // The stored document determines the generation: identity, inventory and every entry (but not the location, which
  // is checked separately and not part of it).
  lemma ManifestInjective(m: Manifest, n: Manifest)
    requires EncodeManifest(m) == EncodeManifest(n)
    ensures m == n.(targetLocation := m.targetLocation)
  {
    ManifestCanonical(m);
    ManifestCanonical(n);
    CanonicalInjective(Json.Object(ManifestMembers(m)), Json.Object(ManifestMembers(n)));
    SameMembers(m, n);
  }

  lemma SameMembers(m: Manifest, n: Manifest)
    requires ManifestMembers(m) == ManifestMembers(n)
    ensures m == n.(targetLocation := m.targetLocation)
  {
    var a, b := ManifestMembers(m), ManifestMembers(n);
    assert a[0] == b[0] && a[1] == b[1] && a[2] == b[2] && a[3] == b[3] && a[4] == b[4] && a[5] == b[5];
    assert a[6] == b[6] && a[8] == b[8] && a[9] == b[9] && a[10] == b[10];
    var x, y := EntryItems(m.entries), EntryItems(n.entries);
    assert x == y;
    forall i | 0 <= i < |m.entries| ensures m.entries[i] == n.entries[i] {
      assert x[i].members[0] == y[i].members[0] && x[i].members[1] == y[i].members[1]
          && x[i].members[2] == y[i].members[2];
    }
  }

  // ---------------------------------------------------------------- the active pointer

  function PointerMembers(project: string, environment: string, p: Pointer): seq<Json.Member> {
    [ Json.Member("environment", Json.String(environment)),
      Json.Member("inventory_sha256", Json.String(p.inventory)),
      Json.Member("migration_id", Json.String(p.id)),
      Json.Member("project", Json.String(project)),
      Json.Member("schema_version", Json.Int(1)) ]
  }

  const POINTER_FIELDS := ["environment", "inventory_sha256", "migration_id", "project", "schema_version"]

  function EncodePointer(project: string, environment: string, p: Pointer): Bytes {
    Codec.CanonicalBytes(Json.Object(PointerMembers(project, environment, p)))
  }

  // str.lower on the characters a digest may contain.
  function Lower(s: string): (r: string)
    ensures |r| == |s|
  {
    seq(|s|, i requires 0 <= i < |s| => if 'A' <= s[i] <= 'Z' then s[i] + 32 as char else s[i])
  }

  lemma LowerHexUnchanged(s: string)
    requires Codec.IsLowerHex(s, 64)
    ensures Lower(s) == s
  {
    assert forall i :: 0 <= i < |s| ==> s[i] in s;
  }

  // str(document.get(key, ""))
  function TextOf(f: Json.Floats, ms: seq<Json.Member>, key: string): Option<string> {
    Codec.Str(f, Json.Get(ms, key).GetOr(Json.String("")))
  }

  // The reader checks scope and shape but, unlike the coordination readers, not canonicality.
  function DecodePointer(f: Json.Floats, project: string, environment: string, payload: Bytes): Option<Pointer> {
    match Utf8.Decode(payload)
    case None => None
    case Some(text) =>
      match Json.Loads(f, text)
      case None => None
      case Some(j) => if j.Object? then ReadPointer(f, project, environment, j.members) else None
  }

  function ReadPointer(f: Json.Floats, project: string, environment: string, ms: seq<Json.Member>): Option<Pointer> {
    var id, inventory := TextOf(f, ms, "migration_id"), TextOf(f, ms, "inventory_sha256");
    if Codec.EqualsInt(f, Codec.Field(ms, "schema_version"), 1)
       && Codec.Field(ms, "project") == Json.String(project)
       && Codec.Field(ms, "environment") == Json.String(environment)
       && id.Some? && IsMigrationId(id.value)
       && inventory.Some? && Codec.IsLowerHex(Lower(inventory.value), 64)
    then Some(Pointer(id.value, Lower(inventory.value)))
    else None
  }

  // What a reader has checked of the pointer it returns.
  lemma PointerChecked(f: Json.Floats, project: string, environment: string, ms: seq<Json.Member>)
    requires ReadPointer(f, project, environment, ms).Some?
    ensures var p := ReadPointer(f, project, environment, ms).value;
            && Json.Get(ms, "project") == Some(Json.String(project))
            && Json.Get(ms, "environment") == Some(Json.String(environment))
            && Codec.EqualsInt(f, Json.Get(ms, "schema_version").GetOr(Json.Null), 1)
            && 1 <= |p.id| <= 128 && Codec.IsComponent(p.id) && Codec.IsLowerHex(p.inventory, 64)
  {
  }

  lemma WrittenIsRead(f: Json.Floats, project: string, environment: string, other: string, place: string, p: Pointer)
    ensures DecodePointer(f, project, environment, EncodePointer(other, place, p)) ==
            ReadPointer(f, project, environment, PointerMembers(other, place, p))
  {
    var doc := Json.Object(PointerMembers(other, place, p));
    PointerFields(other, place, p);
    Utf8.DecodeEncode(Json.Print(doc) + "\n");
    Json.LoadsPrinted(f, doc);
  }

  // Of the pointers that are ever written, a reader accepts exactly those of its own project and environment.
  lemma PointerAcceptedIff(f: Json.Floats, project: string, environment: string, other: string, place: string,
                           p: Pointer)
    requires IsMigrationId(p.id) && Codec.IsLowerHex(p.inventory, 64)
    ensures DecodePointer(f, project, environment, EncodePointer(other, place, p)) ==
            if project == other && environment == place then Some(p) else None
  {
    PointerReads(f, other, place, p);
    var ms := PointerMembers(other, place, p);
    PointerFields(other, place, p);
    WrittenIsRead(f, project, environment, other, place, p);
    assert POINTER_FIELDS[0] == "environment" && POINTER_FIELDS[3] == "project";
    if ReadPointer(f, project, environment, ms).Some? {
      PointerChecked(f, project, environment, ms);
    }
  }

  lemma PointerKeys(project: string, environment: string, p: Pointer)
    ensures Json.Keys(PointerMembers(project, environment, p)) == POINTER_FIELDS && Ascending(POINTER_FIELDS)
  {
    NeighboursAscending(POINTER_FIELDS);
  }

  lemma PointerFields(project: string, environment: string, p: Pointer)
    ensures Json.Canonical(Json.Object(PointerMembers(project, environment, p)))
    ensures var ms := PointerMembers(project, environment, p);
            forall i :: 0 <= i < 5 ==> Json.Get(ms, POINTER_FIELDS[i]) == Some(ms[i].value)
  {
    var ms := PointerMembers(project, environment, p);
    PointerKeys(project, environment, p);
    forall i | 0 <= i < 5 ensures Json.Get(ms, POINTER_FIELDS[i]) == Some(ms[i].value) {
      assert Json.Keys(ms)[i] == ms[i].key;
      Json.GetAt(ms, i);
    }
  }

  lemma PointerReads(f: Json.Floats, project: string, environment: string, p: Pointer)
    requires IsMigrationId(p.id) && Codec.IsLowerHex(p.inventory, 64)
    ensures ReadPointer(f, project, environment, PointerMembers(project, environment, p)) == Some(p)
  {
    PointerFields(project, environment, p);
    LowerHexUnchanged(p.inventory);
    assert POINTER_FIELDS[0] == "environment" && POINTER_FIELDS[1] == "inventory_sha256";
    assert POINTER_FIELDS[2] == "migration_id" && POINTER_FIELDS[3] == "project"
        && POINTER_FIELDS[4] == "schema_version";
  }

  // Reading the pointer back gives what was published.
  lemma PointerRoundTrip(f: Json.Floats, project: string, environment: string, p: Pointer)
    requires IsMigrationId(p.id) && Codec.IsLowerHex(p.inventory, 64)
    ensures DecodePointer(f, project, environment, EncodePointer(project, environment, p)) == Some(p)
  {
    WrittenIsRead(f, project, environment, project, environment, p);
    PointerReads(f, project, environment, p);
  }
}
