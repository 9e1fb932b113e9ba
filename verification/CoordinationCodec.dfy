/**
 The byte formats of the coordination lease and of the retention pins, and their strict readers.

 A reader parses UTF-8 JSON, demands the canonical form, checks every field, and finally demands that encoding
 the accepted value gives back the very bytes that were read.
 */
module CoordinationCodec {
  import opened Option
  import opened Text
  import Utf8
  import Json

  datatype Reject =
    | NotJson | NotAnObject | NotCanonical | UnexpectedSchema | WrongScope
    | BadLeaseId | BadLabel | BadGeneration | BadTtl
    | BadComponent | WrongKey | BadSegments | BadBoundaries
    | NonCanonicalFields

  datatype Result<+T> = Ok(value: T) | Err(why: Reject)

  // The archive an adapter is bound to.
  datatype Scope = Scope(project: string, cluster: string, system: string)

  type Bytes = seq<Utf8.Byte>

  // ---------------------------------------------------------------- field checks

  predicate Alphanumeric(c: char) {
    'A' <= c <= 'Z' || 'a' <= c <= 'z' || '0' <= c <= '9'
  }

  predicate IsComponent(s: string) {
    1 <= |s| <= 192 && Alphanumeric(s[0]) && forall c :: c in s ==> Alphanumeric(c) || c in "._-"
  }

  predicate IsLabel(s: string) {
    1 <= |s| <= 256 && Alphanumeric(s[0]) && forall c :: c in s ==> Alphanumeric(c) || c in "._:/@-"
  }

  predicate IsLowerHex(s: string, length: nat) {
    |s| == length && forall c :: c in s ==> '0' <= c <= '9' || 'a' <= c <= 'f'
  }

  predicate IsSegmentName(s: string) {
    |s| == 24 && forall c :: c in s ==> '0' <= c <= '9' || 'A' <= c <= 'F'
  }

  // Python's value == n, where True equals 1 and 1.0 equals 1.
  predicate EqualsInt(f: Json.Floats, j: Json.Json, n: int) {
    match j
    case Int(m) => m == n
    case Bool(b) => n == if b then 1 else 0
    case Float(shown) => f.equalsInt(shown, n)
    case _ => false
  }

  // Python's str(value); a list or dict prints with brackets and so never passes the checks applied here.
  function Str(f: Json.Floats, j: Json.Json): Option<string> {
    match j
    case String(s) => Some(s)
    case Int(n) => Some(Json.PrintInt(n))
    case Bool(b) => Some(if b then "True" else "False")
    case Null => Some("None")
    case Float(shown) => Some(f.text(shown))
    case _ => None
  }

  function Field(ms: seq<Json.Member>, key: string): Json.Json {
    Json.Get(ms, key).GetOr(Json.Null)
  }

  predicate HasExactly(ms: seq<Json.Member>, fields: seq<string>) {
    (set k | k in Json.Keys(ms)) == (set k | k in fields)
  }

  // ---------------------------------------------------------------- canonical JSON

  function CanonicalBytes(j: Json.Json): Bytes {
    Utf8.Encode(Json.Print(j) + "\n")
  }

  function StrictObject(f: Json.Floats, payload: Bytes): Result<seq<Json.Member>> {
    match Utf8.Decode(payload)
    case None => Err(NotJson)
    case Some(text) =>
      match Json.Loads(f, text)
      case None => Err(NotJson)
      case Some(j) =>
        if !j.Object? then Err(NotAnObject)
        else if payload != CanonicalBytes(j) then Err(NotCanonical)
        else Ok(j.members)
  }

  lemma StrictObjectOfCanonical(f: Json.Floats, ms: seq<Json.Member>)
    requires Json.Canonical(Json.Object(ms))
    ensures StrictObject(f, CanonicalBytes(Json.Object(ms))) == Ok(ms)
  {
    Utf8.DecodeEncode(Json.Print(Json.Object(ms)) + "\n");
    Json.LoadsPrinted(f, Json.Object(ms));
  }

  // ---------------------------------------------------------------- leases

  datatype Lease = Lease(id: string, owner: string, purpose: string, generation: int, ttl: int)

  const LEASE_TYPE := "odooctl-pitr-coordination-lease"
  const MIN_TTL := 30
  const MAX_TTL := 3600

  predicate ValidLease(d: Lease) {
    && IsLowerHex(d.id, 32)
    && IsLabel(d.owner)
    && IsLabel(d.purpose)
    && d.generation >= 1
    && MIN_TTL <= d.ttl <= MAX_TTL
  }

  // What the fields of an accepted lease are like, character by character.
  lemma ValidLeaseIff(d: Lease)
    ensures ValidLease(d) <==>
            && |d.id| == 32 && (forall i :: 0 <= i < 32 ==> '0' <= d.id[i] <= '9' || 'a' <= d.id[i] <= 'f')
            && (forall s :: s in {d.owner, d.purpose} ==>
                  && 1 <= |s| <= 256
                  && s[0] !in "._:/@-"
                  && forall i :: 0 <= i < |s| ==>
                       'a' <= s[i] <= 'z' || 'A' <= s[i] <= 'Z' || '0' <= s[i] <= '9' || s[i] in "._:/@-")
            && d.generation >= 1 && 30 <= d.ttl <= 3600
  {
    LabelIff(d.owner);
    LabelIff(d.purpose);
    assert (forall i :: 0 <= i < |d.id| ==> d.id[i] in d.id) && forall c :: c in d.id ==> exists i ::
          0 <= i < |d.id| && d.id[i] == c;
  }

  lemma LabelIff(s: string)
    ensures IsLabel(s) <==>
            && 1 <= |s| <= 256
            && s[0] !in "._:/@-"
            && forall i :: 0 <= i < |s| ==>
                 'a' <= s[i] <= 'z' || 'A' <= s[i] <= 'Z' || '0' <= s[i] <= '9' || s[i] in "._:/@-"
  {
    assert forall i :: 0 <= i < |s| ==> s[i] in s;
    assert forall c :: Alphanumeric(c) ==> c !in "._:/@-";
  }

  function LeaseMembers(scope: Scope, d: Lease): seq<Json.Member> {
    [ Json.Member("cluster_id", Json.String(scope.cluster)),
      Json.Member("generation", Json.Int(d.generation)),
      Json.Member("lease_id", Json.String(d.id)),
      Json.Member("owner", Json.String(d.owner)),
      Json.Member("project", Json.String(scope.project)),
      Json.Member("purpose", Json.String(d.purpose)),
      Json.Member("schema_version", Json.Int(1)),
      Json.Member("system_identifier", Json.String(scope.system)),
      Json.Member("ttl_seconds", Json.Int(d.ttl)),
      Json.Member("type", Json.String(LEASE_TYPE)) ]
  }

  const LEASE_FIELDS := ["cluster_id", "generation", "lease_id", "owner", "project", "purpose", "schema_version",
                         "system_identifier", "ttl_seconds", "type"]

  function EncodeLease(scope: Scope, d: Lease): Bytes {
    CanonicalBytes(Json.Object(LeaseMembers(scope, d)))
  }

  predicate InScope(f: Json.Floats, scope: Scope, ms: seq<Json.Member>, kind: string) {
    && EqualsInt(f, Field(ms, "schema_version"), 1)
    && Field(ms, "type") == Json.String(kind)
    && Field(ms, "project") == Json.String(scope.project)
    && Field(ms, "cluster_id") == Json.String(scope.cluster)
    && Str(f, Field(ms, "system_identifier")) == Some(scope.system)
  }

  function DecodeLease(f: Json.Floats, scope: Scope, payload: Bytes): Result<Lease> {
    match StrictObject(f, payload)
    case Err(why) => Err(why)
    case Ok(ms) =>
      if !HasExactly(ms, LEASE_FIELDS) then Err(UnexpectedSchema)
      else if !InScope(f, scope, ms, LEASE_TYPE) then Err(WrongScope)
      else
        var id, owner, purpose := Field(ms, "lease_id"), Field(ms, "owner"), Field(ms, "purpose");
        var generation, ttl := Field(ms, "generation"), Field(ms, "ttl_seconds");
        if !(id.String? && IsLowerHex(id.s, 32)) then Err(BadLeaseId)
        else if !(owner.String? && IsLabel(owner.s) && purpose.String? && IsLabel(purpose.s)) then Err(BadLabel)
        else if !(generation.Int? && generation.n >= 1) then Err(BadGeneration)
        else if !(ttl.Int? && MIN_TTL <= ttl.n <= MAX_TTL) then Err(BadTtl)
        else
          var d := Lease(id.s, owner.s, purpose.s, generation.n, ttl.n);
          if payload != EncodeLease(scope, d) then Err(NonCanonicalFields) else Ok(d)
  }

  lemma FieldAt(ms: seq<Json.Member>, i: nat)
    requires Ascending(Json.Keys(ms)) && i < |ms|
    ensures Field(ms, ms[i].key) == ms[i].value
  {
    Json.GetAt(ms, i);
  }

  lemma LeaseFieldsAscending()
    ensures Ascending(LEASE_FIELDS)
  {
    assert Less("project", "purpose") && Less("schema_version", "system_identifier");
    NeighboursAscending(LEASE_FIELDS);
  }

  lemma LeaseMembersCanonical(scope: Scope, d: Lease)
    ensures Json.Keys(LeaseMembers(scope, d)) == LEASE_FIELDS
    ensures Json.Canonical(Json.Object(LeaseMembers(scope, d)))
  {
    LeaseFieldsAscending();
    assert Json.Keys(LeaseMembers(scope, d)) == LEASE_FIELDS;
  }

  lemma LeaseFieldsRead(scope: Scope, d: Lease)
    ensures var ms := LeaseMembers(scope, d); forall i :: 0 <= i < 10 ==> Field(ms, LEASE_FIELDS[i]) == ms[i].value
  {
    var ms := LeaseMembers(scope, d);
    LeaseMembersCanonical(scope, d);
    forall i | 0 <= i < 10 ensures Field(ms, LEASE_FIELDS[i]) == ms[i].value {
      assert ms[i].key == Json.Keys(ms)[i];
      FieldAt(ms, i);
    }
  }

  lemma LeaseScopeFields(f: Json.Floats, scope: Scope, d: Lease)
    ensures InScope(f, scope, LeaseMembers(scope, d), LEASE_TYPE)
  {
    LeaseFieldsRead(scope, d);
    assert LEASE_FIELDS[0] == "cluster_id" && LEASE_FIELDS[4] == "project" && LEASE_FIELDS[6] == "schema_version";
    assert LEASE_FIELDS[7] == "system_identifier" && LEASE_FIELDS[9] == "type";
  }

  lemma LeaseOwnFields(scope: Scope, d: Lease)
    ensures var ms := LeaseMembers(scope, d);
            && Field(ms, "generation") == Json.Int(d.generation)
            && Field(ms, "lease_id") == Json.String(d.id)
            && Field(ms, "owner") == Json.String(d.owner)
            && Field(ms, "purpose") == Json.String(d.purpose)
            && Field(ms, "ttl_seconds") == Json.Int(d.ttl)
  {
    LeaseFieldsRead(scope, d);
    assert LEASE_FIELDS[1] == "generation" && LEASE_FIELDS[2] == "lease_id" && LEASE_FIELDS[3] == "owner";
    assert LEASE_FIELDS[5] == "purpose" && LEASE_FIELDS[8] == "ttl_seconds";
  }

  // Decoding undoes encoding, for every valid lease.
  lemma LeaseRoundTrip(f: Json.Floats, scope: Scope, d: Lease)
    requires ValidLease(d)
    ensures DecodeLease(f, scope, EncodeLease(scope, d)) == Ok(d)
  {
    LeaseMembersCanonical(scope, d);
    StrictObjectOfCanonical(f, LeaseMembers(scope, d));
    assert HasExactly(LeaseMembers(scope, d), LEASE_FIELDS);
    LeaseScopeFields(f, scope, d);
    LeaseOwnFields(scope, d);
  }

  // A payload is accepted exactly when it is, byte for byte, the encoding of a valid lease; in particular no field
  // may have another JSON type that Python compares equal (true or 1.0 for 1, a number where a string belongs).
  lemma LeaseAcceptedIffEncoded(f: Json.Floats, scope: Scope, payload: Bytes, d: Lease)
    ensures DecodeLease(f, scope, payload) == Ok(d) <==> ValidLease(d) && payload == EncodeLease(scope, d)
  {
    if ValidLease(d) && payload == EncodeLease(scope, d) {
      LeaseRoundTrip(f, scope, d);
    }
  }

  // The values of a lease object as they are written, in the order of LEASE_FIELDS.
  function LeaseTexts(scope: Scope, d: Lease, kind: string): seq<string> {
    [Json.Quote(scope.cluster), Json.PrintInt(d.generation), Json.Quote(d.id), Json.Quote(d.owner),
     Json.Quote(scope.project), Json.Quote(d.purpose), "1", Json.Quote(scope.system), Json.PrintInt(d.ttl),
     Json.Quote(kind)]
  }

  lemma FieldsPlain(i: nat)
    requires i < 10
    ensures Json.Plain(LEASE_FIELDS[i])
  {
  }

  predicate Shows(v: Json.Json, text: string) {
    (v.String? && text == Json.Quote(v.s)) || (v.Int? && text == Json.PrintInt(v.n))
  }

  lemma ShownIsPrinted(v: Json.Json, text: string)
    requires Shows(v, text)
    ensures Json.Print(v) == text
  {
  }

  ghost predicate AllShown(vs: seq<Json.Json>, texts: seq<string>) {
    |vs| == |texts| && forall i :: 0 <= i < |vs| ==> Shows(vs[i], texts[i])
  }

  function Values(ms: seq<Json.Member>): (r: seq<Json.Json>)
    ensures |r| == |ms|
  {
    seq(|ms|, i requires 0 <= i < |ms| => ms[i].value)
  }

  // Value by value, for any strings and numbers.
  lemma LeaseValuesShown(vs: seq<Json.Json>, texts: seq<string>, a: seq<string>, n: int, m: int)
    requires |a| == 7
    requires vs == [Json.String(a[0]), Json.Int(n), Json.String(a[1]), Json.String(a[2]), Json.String(a[3]),
                    Json.String(a[4]), Json.Int(1), Json.String(a[5]), Json.Int(m), Json.String(a[6])]
    requires texts == [Json.Quote(a[0]), Json.PrintInt(n), Json.Quote(a[1]), Json.Quote(a[2]), Json.Quote(a[3]),
                       Json.Quote(a[4]), "1", Json.Quote(a[5]), Json.PrintInt(m), Json.Quote(a[6])]
    ensures AllShown(vs, texts)
  {
    assert Json.PrintInt(1) == "1";
  }

  function LeaseStrings(scope: Scope, d: Lease, kind: string): seq<string> {
    [scope.cluster, d.id, d.owner, scope.project, d.purpose, scope.system, kind]
  }

  lemma LeaseValues(scope: Scope, d: Lease, kind: string)
    requires kind == LEASE_TYPE
    ensures var a := LeaseStrings(scope, d, kind);
            Values(LeaseMembers(scope, d)) ==
            [Json.String(a[0]), Json.Int(d.generation), Json.String(a[1]), Json.String(a[2]), Json.String(a[3]),
             Json.String(a[4]), Json.Int(1), Json.String(a[5]), Json.Int(d.ttl), Json.String(a[6])]
  {
  }

  lemma LeaseTextsOf(scope: Scope, d: Lease, kind: string)
    ensures var a := LeaseStrings(scope, d, kind);
            LeaseTexts(scope, d, kind) ==
            [Json.Quote(a[0]), Json.PrintInt(d.generation), Json.Quote(a[1]), Json.Quote(a[2]), Json.Quote(a[3]),
             Json.Quote(a[4]), "1", Json.Quote(a[5]), Json.PrintInt(d.ttl), Json.Quote(a[6])]
  {
  }

  lemma LeaseShown(scope: Scope, d: Lease, kind: string)
    requires kind == LEASE_TYPE
    ensures AllShown(Values(LeaseMembers(scope, d)), LeaseTexts(scope, d, kind))
  {
    LeaseValues(scope, d, kind);
    LeaseTextsOf(scope, d, kind);
    LeaseValuesShown(Values(LeaseMembers(scope, d)), LeaseTexts(scope, d, kind), LeaseStrings(scope, d, kind),
        d.generation, d.ttl);
  }

  lemma MembersPrinted(ms: seq<Json.Member>, keys: seq<string>, texts: seq<string>)
    requires ms != [] && Json.Keys(ms) == keys && AllShown(Values(ms), texts)
    requires forall i :: 0 <= i < |keys| ==> Json.Plain(keys[i])
    ensures Json.Print(Json.Object(ms)) == "{" + Json.Joined(keys, texts)
  {
    forall i | 0 <= i < |ms| ensures ms[i].key == keys[i] && Json.Print(ms[i].value) == texts[i] {
      assert Json.Keys(ms)[i] == ms[i].key && Values(ms)[i] == ms[i].value;
      ShownIsPrinted(ms[i].value, texts[i]);
    }
    Json.MembersJoined(ms, keys, texts);
  }

  // The bytes of a lease object: one line, its members in this order and nothing between them but colons and commas.
  lemma LeaseText(scope: Scope, d: Lease, kind: string)
    requires kind == "odooctl-pitr-coordination-lease"
    ensures EncodeLease(scope, d) == Utf8.Encode("{" + Json.Joined(LEASE_FIELDS, LeaseTexts(scope, d, kind)) + "\n")
  {
    LeaseMembersCanonical(scope, d);
    LeaseShown(scope, d, kind);
    forall i | 0 <= i < |LEASE_FIELDS| ensures Json.Plain(LEASE_FIELDS[i]) {
      FieldsPlain(i);
    }
    MembersPrinted(LeaseMembers(scope, d), LEASE_FIELDS, LeaseTexts(scope, d, kind));
  }

  // ---------------------------------------------------------------- pins

  datatype Segment = Segment(filename: string, sha256: string, size: int)

  datatype Pin = Pin(kind: string, id: string, environment: string, base: string, segments: seq<Segment>)

  // The fields of one WAL entry before validation.
  datatype RawSegment = RawSegment(filename: Json.Json, sha256: Json.Json, size: Json.Json)

  const PIN_TYPE := "odooctl-pitr-retention-pin"

  predicate ValidSegment(s: Segment) {
    IsSegmentName(s.filename) && IsLowerHex(s.sha256, 64) && s.size > 0
  }

  function Filenames(segments: seq<Segment>): (r: seq<string>)
    ensures |r| == |segments|
    ensures forall i :: 0 <= i < |segments| ==> r[i] == segments[i].filename
  {
    seq(|segments|, i requires 0 <= i < |segments| => segments[i].filename)
  }

  // At least one segment, strictly ascending, all of one timeline (the first eight digits).
  predicate ValidSegments(segments: seq<Segment>) {
    && segments != []
    && (forall i :: 0 <= i < |segments| ==> ValidSegment(segments[i]))
    && Ascending(Filenames(segments))
    && forall i :: 0 <= i < |segments| ==> segments[i].filename[..8] == segments[0].filename[..8]
  }

  predicate ValidPin(p: Pin) {
    && (p.kind == "plan" || p.kind == "restore")
    && IsComponent(p.id)
    && IsComponent(p.environment)
    && IsComponent(p.base)
    && ValidSegments(p.segments)
  }

  // What an accepted pin lists, name by name.
  lemma ValidSegmentsIff(segments: seq<Segment>)
    ensures ValidSegments(segments) <==>
            && |segments| > 0
            && (forall i :: 0 <= i < |segments| ==> SegmentMeans(segments[i]))
            && (forall i, j :: 0 <= i < j < |segments| ==> Less(segments[i].filename, segments[j].filename))
            && (forall i, k :: 0 <= i < |segments| && 0 <= k < 8 && |segments[i].filename| == 24
                               && |segments[0].filename| == 24 ==>
                  segments[i].filename[k] == segments[0].filename[k])
  {
    var names := Filenames(segments);
    forall i | 0 <= i < |segments| ensures ValidSegment(segments[i]) <==> SegmentMeans(segments[i]) {
      SegmentMeansValid(segments[i]);
    }
    forall i | 0 <= i < |segments| && |segments[i].filename| == 24 && |segments[0].filename| == 24
      ensures segments[i].filename[..8] == segments[0].filename[..8] <==>
              forall k :: 0 <= k < 8 ==> segments[i].filename[k] == segments[0].filename[k]
    {
      SamePrefix(segments[i].filename, segments[0].filename);
    }
    assert Ascending(names) <==> forall i, j :: 0 <= i < j < |segments| ==>
        Less(segments[i].filename, segments[j].filename);
  }

  lemma SamePrefix(a: string, b: string)
    requires |a| >= 8 && |b| >= 8
    ensures a[..8] == b[..8] <==> forall k :: 0 <= k < 8 ==> a[k] == b[k]
  {
    if a[..8] == b[..8] {
      forall k | 0 <= k < 8 ensures a[k] == b[k] {
        assert a[..8][k] == b[..8][k];
      }
    }
  }

  // A segment name of 24 upper-case hexadecimal digits, the lower-case digest, and a size that is not zero.
  predicate SegmentMeans(s: Segment) {
    && |s.filename| == 24 && (forall k :: 0 <= k < 24 ==> '0' <= s.filename[k] <= '9' || 'A' <= s.filename[k] <= 'F')
    && |s.sha256| == 64 && (forall k :: 0 <= k < 64 ==> '0' <= s.sha256[k] <= '9' || 'a' <= s.sha256[k] <= 'f')
    && s.size >= 1
  }

  lemma SegmentMeansValid(s: Segment)
    ensures ValidSegment(s) <==> SegmentMeans(s)
  {
    assert forall k :: 0 <= k < |s.filename| ==> s.filename[k] in s.filename;
    assert forall k :: 0 <= k < |s.sha256| ==> s.sha256[k] in s.sha256;
  }

  function ReadSegment(raw: RawSegment): Option<Segment> {
    if raw.filename.String? && raw.sha256.String? && raw.size.Int?
       && ValidSegment(Segment(raw.filename.s, raw.sha256.s, raw.size.n))
    then Some(Segment(raw.filename.s, raw.sha256.s, raw.size.n))
    else None
  }

  function ReadSegments(raws: seq<RawSegment>): (r: Option<seq<Segment>>)
    ensures r.Some? <==> forall i :: 0 <= i < |raws| ==> ReadSegment(raws[i]).Some?
    ensures r.Some? ==> |r.value| == |raws| && forall i :: 0 <= i < |raws| ==> ReadSegment(raws[i]) == Some(r.value[i])
  {
    if raws == [] then Some([])
    else
      match (ReadSegment(raws[0]), ReadSegments(raws[1..]))
      case (Some(s), Some(rest)) => Some([s] + rest)
      case _ => None
  }

  function ValidatedSegments(raws: seq<RawSegment>): Option<seq<Segment>> {
    match ReadSegments(raws)
    case None => None
    case Some(segments) => if ValidSegments(segments) then Some(segments) else None
  }

  // The validation loop: entries are checked one by one, then compared with their sorted, deduplicated names.
  method ValidatePinnedWal(raws: seq<RawSegment>) returns (r: Option<seq<Segment>>)
    ensures r == ValidatedSegments(raws)
  {
    var validated: seq<Segment>, ordered: seq<string> := [], [];
    for i := 0 to |raws|
      invariant |validated| == i && Ascending(ordered)
      invariant forall k :: 0 <= k < i ==> ReadSegment(raws[k]) == Some(validated[k])
      invariant forall s :: s in ordered <==> s in Filenames(validated)
    {
      var next := ReadSegment(raws[i]);
      if next.None? {
        return None;
      }
      ghost var names := Filenames(validated);
      ordered := Insert(ordered, next.value.filename);
      validated := validated + [next.value];
      assert Filenames(validated) == names + [next.value.filename];
    }
    assert ReadSegments(raws).Some? && validated == ReadSegments(raws).value;
    if validated == [] {
      return None;
    }
    if Filenames(validated) != ordered {
      if Ascending(Filenames(validated)) {
        AscendingUnique(Filenames(validated), ordered);
      }
      return None;
    }
    var timeline := validated[0].filename[..8];
    for i := 0 to |validated|
      invariant forall k :: 0 <= k < i ==> validated[k].filename[..8] == timeline
    {
      if validated[i].filename[..8] != timeline {
        return None;
      }
    }
    return Some(validated);
  }

  function SegmentJson(s: Segment): Json.Json {
    Json.Object([ Json.Member("filename", Json.String(s.filename)),
                  Json.Member("sha256", Json.String(s.sha256)),
                  Json.Member("size", Json.Int(s.size)) ])
  }

  function SegmentItems(segments: seq<Segment>): (r: seq<Json.Json>)
    ensures |r| == |segments|
    ensures forall i :: 0 <= i < |segments| ==> r[i] == SegmentJson(segments[i])
  {
    seq(|segments|, i requires 0 <= i < |segments| => SegmentJson(segments[i]))
  }

  function PinMembers(scope: Scope, p: Pin): seq<Json.Member>
    requires p.segments != []
  {
    [ Json.Member("base_backup_id", Json.String(p.base)),
      Json.Member("cluster_id", Json.String(scope.cluster)),
      Json.Member("environment", Json.String(p.environment)),
      Json.Member("first_wal", Json.String(p.segments[0].filename)),
      Json.Member("kind", Json.String(p.kind)),
      Json.Member("last_wal", Json.String(p.segments[|p.segments| - 1].filename)),
      Json.Member("pin_id", Json.String(p.id)),
      Json.Member("project", Json.String(scope.project)),
      Json.Member("schema_version", Json.Int(1)),
      Json.Member("system_identifier", Json.String(scope.system)),
      Json.Member("type", Json.String(PIN_TYPE)),
      Json.Member("wal_count", Json.Int(|p.segments|)),
      Json.Member("wal_segments", Json.Array(SegmentItems(p.segments))) ]
  }

  const PIN_FIELDS := ["base_backup_id", "cluster_id", "environment", "first_wal", "kind", "last_wal", "pin_id",
      "project",
                       "schema_version", "system_identifier", "type", "wal_count", "wal_segments"]

  const SEGMENT_FIELDS := ["filename", "sha256", "size"]

  function EncodePin(scope: Scope, p: Pin): Bytes
    requires p.segments != []
  {
    CanonicalBytes(Json.Object(PinMembers(scope, p)))
  }

  function PinKey(prefix: string, kind: string, id: string): string {
    prefix + "/" + kind + "/" + id + ".json"
  }

  // A pin's key tells its kind and id.
  lemma PinKeyInjective(prefix: string, kind: string, id: string, other: string, name: string)
    requires '/' !in id && '/' !in name && PinKey(prefix, kind, id) == PinKey(prefix, other, name)
    ensures kind == other && id == name
  {
    var n := |prefix| + 1;
    var a, b := PinKey(prefix, kind, id)[n..], PinKey(prefix, other, name)[n..];
    assert a == kind + "/" + id + ".json" && b == other + "/" + name + ".json";
    assert a[|kind|] == '/' && b[|other|] == '/';
    assert a[|kind| + 1..|kind| + 1 + |id|] == id && b[|other| + 1..|other| + 1 + |name|] == name;
    assert a[..|kind|] == kind && b[..|other|] == other;
  }

  // Every entry must be an object with exactly the three fields.
  function RawSegments(items: seq<Json.Json>): (r: Option<seq<RawSegment>>)
    ensures r.Some? ==> |r.value| == |items|
  {
    if items == [] then Some([])
    else if !(items[0].Object? && HasExactly(items[0].members, SEGMENT_FIELDS)) then None
    else
      match RawSegments(items[1..])
      case None => None
      case Some(rest) =>
        var ms := items[0].members;
        Some([RawSegment(Field(ms, "filename"), Field(ms, "sha256"), Field(ms, "size"))] + rest)
  }

  function DecodePin(f: Json.Floats, scope: Scope, prefix: string, key: string, payload: Bytes): Result<Pin> {
    match StrictObject(f, payload)
    case Err(why) => Err(why)
    case Ok(ms) =>
      match DecodePinHeader(f, scope, prefix, key, ms)
      case Err(why) => Err(why)
      case Ok(p) => DecodePinSegments(f, scope, ms, p, payload)
  }

  // Everything but the WAL list.
  function DecodePinHeader(f: Json.Floats, scope: Scope, prefix: string, key: string,
                           ms: seq<Json.Member>): (r: Result<Pin>)
    ensures r.Ok? ==>
      && (r.value.kind == "plan" || r.value.kind == "restore")
      && IsComponent(r.value.id) && IsComponent(r.value.environment) && IsComponent(r.value.base)
      && key == PinKey(prefix, r.value.kind, r.value.id)
  {
    if !HasExactly(ms, PIN_FIELDS) then Err(UnexpectedSchema)
    else if !InScope(f, scope, ms, PIN_TYPE) then Err(WrongScope)
    else
      var kind, base := Field(ms, "kind"), Field(ms, "base_backup_id");
      var id, environment := Str(f, Field(ms, "pin_id")), Str(f, Field(ms, "environment"));
      if !(kind == Json.String("plan") || kind == Json.String("restore")) then Err(BadComponent)
      else if !(id.Some? && IsComponent(id.value) && environment.Some? && IsComponent(environment.value)
                && base.String? && IsComponent(base.s)) then Err(BadComponent)
      else if PinKey(prefix, kind.s, id.value) != key then Err(WrongKey)
      else Ok(Pin(kind.s, id.value, environment.value, base.s, []))
  }

  // The listed segments, if every entry has the right fields and the list is valid.
  function SegmentsOf(wal: Json.Json): (r: Option<seq<Segment>>)
    ensures r.Some? ==> ValidSegments(r.value)
  {
    if !wal.Array? || RawSegments(wal.items).None? then None else ValidatedSegments(RawSegments(wal.items).value)
  }

  predicate BoundariesMatch(f: Json.Floats, ms: seq<Json.Member>, segments: seq<Segment>)
    requires segments != []
  {
    && !Field(ms, "wal_count").Bool?
    && EqualsInt(f, Field(ms, "wal_count"), |segments|)
    && Field(ms, "first_wal") == Json.String(segments[0].filename)
    && Field(ms, "last_wal") == Json.String(segments[|segments| - 1].filename)
  }

  // The WAL list of a pin whose other fields are already accepted.
  function DecodePinSegments(f: Json.Floats, scope: Scope, ms: seq<Json.Member>, p: Pin,
                             payload: Bytes): (r: Result<Pin>)
    ensures r.Ok? ==>
      && ValidSegments(r.value.segments)
      && r.value == p.(segments := r.value.segments)
      && payload == EncodePin(scope, r.value)
  {
    match SegmentsOf(Field(ms, "wal_segments"))
    case None => Err(BadSegments)
    case Some(segments) =>
      if !BoundariesMatch(f, ms, segments) then Err(BadBoundaries)
      else if payload != EncodePin(scope, p.(segments := segments)) then Err(NonCanonicalFields)
      else Ok(p.(segments := segments))
  }

  lemma SegmentCanonical(s: Segment)
    ensures Json.Canonical(SegmentJson(s))
    ensures Json.Keys(SegmentJson(s).members) == SEGMENT_FIELDS
    ensures var ms := SegmentJson(s).members;
            Field(ms, "filename") == Json.String(s.filename)
            && Field(ms, "sha256") == Json.String(s.sha256) && Field(ms, "size") == Json.Int(s.size)
  {
    var ms := SegmentJson(s).members;
    assert Less("sha256", "size");
    NeighboursAscending(SEGMENT_FIELDS);
    assert Json.Keys(ms) == SEGMENT_FIELDS;
    FieldAt(ms, 0);
    FieldAt(ms, 1);
    FieldAt(ms, 2);
  }

  lemma {:induction false} RawSegmentsRoundTrip(segments: seq<Segment>)
    requires forall i :: 0 <= i < |segments| ==> ValidSegment(segments[i])
    ensures RawSegments(SegmentItems(segments)).Some?
    ensures ReadSegments(RawSegments(SegmentItems(segments)).value) == Some(segments)
  {
    if segments != [] {
      SegmentCanonical(segments[0]);
      RawSegmentsRoundTrip(segments[1..]);
      assert SegmentItems(segments)[1..] == SegmentItems(segments[1..]);
      var rest := RawSegments(SegmentItems(segments[1..])).value;
      var raws := RawSegments(SegmentItems(segments)).value;
      assert raws[1..] == rest;
      assert segments == [segments[0]] + segments[1..];
    }
  }

  lemma PinFieldsAscending()
    ensures Ascending(PIN_FIELDS)
  {
    assert Less("pin_id", "project") && Less("schema_version", "system_identifier")
        && Less("wal_count", "wal_segments");
    NeighboursAscending(PIN_FIELDS);
  }

  lemma PinMembersCanonical(scope: Scope, p: Pin)
    requires p.segments != []
    ensures Json.Keys(PinMembers(scope, p)) == PIN_FIELDS
    ensures Json.Canonical(Json.Object(PinMembers(scope, p)))
  {
    var ms := PinMembers(scope, p);
    PinFieldsAscending();
    assert Json.Keys(ms) == PIN_FIELDS;
    forall i | 0 <= i < |p.segments| ensures Json.Canonical(SegmentItems(p.segments)[i]) {
      SegmentCanonical(p.segments[i]);
    }
    assert Json.Canonical(ms[12].value);
  }

  lemma PinFieldsRead(scope: Scope, p: Pin)
    requires p.segments != []
    ensures var ms := PinMembers(scope, p); forall i :: 0 <= i < 13 ==> Field(ms, PIN_FIELDS[i]) == ms[i].value
  {
    var ms := PinMembers(scope, p);
    PinMembersCanonical(scope, p);
    forall i | 0 <= i < 13 ensures Field(ms, PIN_FIELDS[i]) == ms[i].value {
      assert ms[i].key == Json.Keys(ms)[i];
      FieldAt(ms, i);
    }
  }

  lemma PinScopeFields(f: Json.Floats, scope: Scope, p: Pin)
    requires p.segments != []
    ensures InScope(f, scope, PinMembers(scope, p), PIN_TYPE)
  {
    PinFieldsRead(scope, p);
    assert PIN_FIELDS[1] == "cluster_id" && PIN_FIELDS[7] == "project" && PIN_FIELDS[8] == "schema_version";
    assert PIN_FIELDS[9] == "system_identifier" && PIN_FIELDS[10] == "type";
  }

  lemma PinOwnFields(scope: Scope, p: Pin)
    requires p.segments != []
    ensures var ms := PinMembers(scope, p);
            && Field(ms, "base_backup_id") == Json.String(p.base)
            && Field(ms, "environment") == Json.String(p.environment)
            && Field(ms, "kind") == Json.String(p.kind)
            && Field(ms, "pin_id") == Json.String(p.id)
  {
    PinFieldsRead(scope, p);
    assert PIN_FIELDS[0] == "base_backup_id" && PIN_FIELDS[2] == "environment";
    assert PIN_FIELDS[4] == "kind" && PIN_FIELDS[6] == "pin_id";
  }

  lemma PinWalFields(scope: Scope, p: Pin)
    requires p.segments != []
    ensures var ms := PinMembers(scope, p);
            && Field(ms, "first_wal") == Json.String(p.segments[0].filename)
            && Field(ms, "last_wal") == Json.String(p.segments[|p.segments| - 1].filename)
            && Field(ms, "wal_count") == Json.Int(|p.segments|)
            && Field(ms, "wal_segments") == Json.Array(SegmentItems(p.segments))
  {
    PinFieldsRead(scope, p);
    assert PIN_FIELDS[3] == "first_wal" && PIN_FIELDS[5] == "last_wal";
    assert PIN_FIELDS[11] == "wal_count" && PIN_FIELDS[12] == "wal_segments";
  }

  lemma PinHeaderRoundTrip(f: Json.Floats, scope: Scope, prefix: string, p: Pin)
    requires ValidPin(p)
    ensures DecodePinHeader(f, scope, prefix, PinKey(prefix, p.kind, p.id), PinMembers(scope, p)) ==
              Ok(p.(segments := []))
  {
    PinMembersCanonical(scope, p);
    assert HasExactly(PinMembers(scope, p), PIN_FIELDS);
    PinScopeFields(f, scope, p);
    PinOwnFields(scope, p);
  }

  lemma SegmentsOfItems(segments: seq<Segment>)
    requires ValidSegments(segments)
    ensures SegmentsOf(Json.Array(SegmentItems(segments))) == Some(segments)
  {
    RawSegmentsRoundTrip(segments);
  }

  lemma PinSegmentsRoundTrip(f: Json.Floats, scope: Scope, ms: seq<Json.Member>, p: Pin)
    requires ValidSegments(p.segments)
    requires Field(ms, "first_wal") == Json.String(p.segments[0].filename)
    requires Field(ms, "last_wal") == Json.String(p.segments[|p.segments| - 1].filename)
    requires Field(ms, "wal_count") == Json.Int(|p.segments|)
    requires Field(ms, "wal_segments") == Json.Array(SegmentItems(p.segments))
    ensures DecodePinSegments(f, scope, ms, p.(segments := []), EncodePin(scope, p)) == Ok(p)
  {
    SegmentsOfItems(p.segments);
    assert BoundariesMatch(f, ms, p.segments);
    assert p.(segments := []).(segments := p.segments) == p;
  }

  // Decoding undoes encoding, for every valid pin read under its own key.
  lemma PinRoundTrip(f: Json.Floats, scope: Scope, prefix: string, p: Pin)
    requires ValidPin(p)
    ensures DecodePin(f, scope, prefix, PinKey(prefix, p.kind, p.id), EncodePin(scope, p)) == Ok(p)
  {
    var ms := PinMembers(scope, p);
    PinMembersCanonical(scope, p);
    StrictObjectOfCanonical(f, ms);
    PinHeaderRoundTrip(f, scope, prefix, p);
    PinWalFields(scope, p);
    PinSegmentsRoundTrip(f, scope, ms, p);
  }

  // A payload is accepted under a key exactly when it is, byte for byte, the encoding of a valid pin that belongs
  // there.
  lemma PinAcceptedIffEncoded(f: Json.Floats, scope: Scope, prefix: string, key: string, payload: Bytes, p: Pin)
    ensures DecodePin(f, scope, prefix, key, payload) == Ok(p)
            <==> ValidPin(p) && key == PinKey(prefix, p.kind, p.id) && payload == EncodePin(scope, p)
  {
    if ValidPin(p) && key == PinKey(prefix, p.kind, p.id) && payload == EncodePin(scope, p) {
      PinRoundTrip(f, scope, prefix, p);
    }
  }

  // The bytes of a lease object determine its value, so the state machine may work on values.
  lemma EncodingsInjective(f: Json.Floats, scope: Scope, d: Lease, e: Lease)
    requires ValidLease(d) && ValidLease(e) && EncodeLease(scope, d) == EncodeLease(scope, e)
    ensures d == e
  {
    LeaseRoundTrip(f, scope, d);
    LeaseRoundTrip(f, scope, e);
  }
}
