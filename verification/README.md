# Verification of the odooctl coordination and publication protocols

A Dafny 4.11 project that models the protocols by which odooctl shares object storage, cloud volumes, Kubernetes
objects and local directories between hosts and retries, and proves what they guarantee. Check all of it with
`dafny verify --resource-limit 2000000 dfyconfig.toml`.

## What is modelled

- **PITR coordination lease** (`LeaseProtocol`, `LeaseSafety`, `LeaseCalls`, `LeaseHeld`, `LeaseProgress`): one lease
  object moved by conditional requests, any number of clients, one step per object-store call. A PUT or DELETE may take
  effect and return, take effect and raise, or raise without effect; the clock advances at will; clients may stop
  anywhere; assert, renew and release may be passed any handle. Freedom from ABA, what the arguments of each call let it
  do and answer, and how a lease can enter, change in and leave the store are proved over all runs, mutual exclusion over
  those in which `AllTruthful` and `AllUseOwnHandles` hold; `LeaseHeld` gives the condition that is necessary as well.
- **Canonical documents** (`Utf8`, `Json`, `CoordinationCodec`, `FilestoreDocs`): the JSON printer and the full JSON
  reader, and the lease, pin, manifest and pointer documents. Accepted lease and pin payloads are exactly the printer's
  output. How a number literal with a fraction or exponent compares with an integer is a parameter (`Json.Floats`),
  so the results hold for any floating-point arithmetic.
- **Object store** (`ObjectStore`): a bucket changed in place, with a ghost trace of its state after every call and a
  ghost count of failed calls. A result that fails without cause shows as an error with an unchanged count. `stale` says
  that listings may miss keys, `shared` names keys that other actors may create.
- **Base backups** (`BaseBackup`), **portable backups** (`PortableBackup`), **filestore generations** (`Filestore`,
  `ActivePointer`), **write-once archive objects** (`WalArchive`) and **receipts** (`ReceiptStore`): the publication
  protocols, with what holds at every call boundary and what a retry achieves.
- **EBS snapshots and restores** (`EbsSnapshot`, `EbsRestore`): one snapshot per volume, CreateVolume idempotent per
  client token, restores cut off anywhere and repeated, among other processes.
- **Kubernetes rollout** (`KubernetesName`, `Rollout`): selector patches as merges (section 2 of RFC 7396), deletion of
  the candidate, ownership checks. The safety results hold for any candidate name, however names are derived or cut.
- **Backup index** (`BackupIndex`), **environment graph** (`EnvironmentGraph`) and **operation queue**
  (`OperationQueue`).

SHA-256 is injective: either a constructor, or a parameter with injectivity as a hypothesis where it is needed.
`Option` and `Text` hold the optional type and the ordering of strings by code point.

Classes model objects whose methods change state; each method is proved against functions and predicates on values,
and the lemmas are about those. Concurrent protocols are state machines whose steps are single remote or file-system
calls.

## What turned out not to hold unconditionally

- Rolling back a promoted Service restores its selector only if the candidate's patch brought no new label
  (`Rollout.PatchBackRestoresIff`); with the canonical selector it does not (`Rollout.RevisionLabelRemains`).
- A client that releases a handle it got from inspecting another host's lease takes that lease away, and two clients can
  be in their sections (`LeaseProgress.RunWithForeignRelease`); exclusion holds for clients that use their own handles.
- After finalize, canonical pods are served only if apply dropped the revision label from the promoted selector
  (`Rollout.FinalizedServesCanonicalIff`).
- An unpromoted rollback deletes a Deployment that is being served when the Service already selected it before the
  rollout, and only then (`Rollout.KubernetesRuntime.BeginAndRollback`, at work in `SecondBegin`). A finalization deletes
  one exactly when the Service of a workload other than the configured one selects the Deployment it deletes
  (`Rollout.KubernetesRuntime.Finalize`, at work in `ForeignFinalize`); `Rollout.KubernetesRuntime.AnyRun` says which
  sequences of operations lead there.
- Synchronizing the backup index makes an environment's entries exactly the desired ones if and only if no file of
  another name claims a desired id (`BackupIndex.EntriesAreDesiredIff`, `BackupIndex.MisnamedEntryStays`), and leaves
  other environments alone if and only if none has an entry under a desired id (`BackupIndex.OtherEntriesUntouchedIff`,
  `BackupIndex.ForeignEntryIsOverwritten`). When the named latest backup is not
  retained, the error comes after entries were removed (`BackupIndex.RefusedPointerIff`).
- Updating a manifest whose id spells a latest pointer overwrites that pointer (`BackupIndex.MetadataStore.Update`).
- A manifest upload whose second fence probe sees the fence removes the marker, unless the clean-up delete itself
  raises; the two outcomes are told apart (`PortableBackup.PortableBackups.UploadManifest`).

## Model

| member | source | states |
|---|---|---|
| Utf8.DecodeEncode | odooctl/adapters/wal_s3.py:228-237 | decoding undoes encoding for every string of scalar values |
| Utf8.DecodeIff | odooctl/adapters/wal_s3.py:1659-1673 | bytes decode to a string if and only if they are its encoding: no overlong form, no surrogate, nothing truncated |
| Json.QuotedParses | odooctl/adapters/wal_s3.py:228-237 | a string escaped as section 7 of RFC 8259 requires is read back as itself, whatever follows it |
| Json.EscapedChar | odooctl/adapters/wal_s3.py:228-237 | which characters are printed as they are, and how each of the others is escaped |
| Json.IntParses | odooctl/adapters/wal_s3.py:228-237 | a printed integer is read back as that integer, not as a float or a prefix of it |
| Json.ParsePrinted | odooctl/adapters/wal_s3.py:228-237 | every printed value with sorted distinct keys is read back, whatever follows it |
| Json.LoadsPrinted | odooctl/adapters/wal_s3.py:1659-1673 | reading a whole canonical text gives the printed value |
| CoordinationCodec.StrictObjectOfCanonical | odooctl/adapters/wal_s3.py:1659-1673 | the strict reader accepts canonical bytes and returns the printed members |
| CoordinationCodec.LeaseRoundTrip | odooctl/adapters/wal_s3.py:1636-1656 | decoding undoes encoding for every valid lease |
| CoordinationCodec.LeaseAcceptedIffEncoded | odooctl/adapters/wal_s3.py:1675-1772 | a payload is accepted as a lease if and only if it is byte for byte the encoding of that valid lease |
| CoordinationCodec.ValidLeaseIff | odooctl/adapters/wal_s3.py:1718-1748 | what the fields of an accepted lease are, character by character and bound by bound |
| CoordinationCodec.LeaseText | odooctl/adapters/wal_s3.py:1634-1656 | the bytes of a lease object are one line of its ten members in key order, with nothing but colons and commas between them, and a newline |
| CoordinationCodec.EncodingsInjective | odooctl/adapters/wal_s3.py:1636-1656 | the bytes of a lease object determine the lease |
| CoordinationCodec.ValidatePinnedWal | odooctl/adapters/wal_s3.py:2127-2157 | accepts exactly non-empty strictly ascending segment lists of one timeline with valid members |
| CoordinationCodec.ValidSegmentsIff | odooctl/adapters/wal_s3.py:2127-2157 | what an accepted segment list is: not empty, names of 24 upper-case digits strictly ascending on one timeline, digests, sizes above zero |
| CoordinationCodec.PinRoundTrip | odooctl/adapters/wal_s3.py:2159-2189 | decoding undoes encoding for every valid pin read under its own key |
| CoordinationCodec.PinAcceptedIffEncoded | odooctl/adapters/wal_s3.py:2191-2289 | a payload is accepted under a key if and only if it is the encoding of a valid pin that belongs under that key |
| CoordinationCodec.PinKeyInjective | odooctl/adapters/wal_s3.py:459-462 | a pin key tells kind and id |
| LeaseSafety.WrittenOnce | odooctl/adapters/wal_s3.py:1969-2020 | a (lease id, generation) pair is written at most once in a run |
| LeaseSafety.StoreChanges | odooctl/adapters/wal_s3.py:1859-2052 | a stored lease is only replaced by its next generation or deleted; the first generation only fills an empty store |
| LeaseSafety.EtagNeverReturns | odooctl/adapters/wal_s3.py:1969-2052 | a tag once displaced is never current again, although the server may choose tags freely for equal content |
| LeaseSafety.OneWinnerPerEtag | odooctl/adapters/wal_s3.py:1969-2052 | of all renewals, releases and recoveries holding one tag, at most one takes effect in a run |
| LeaseSafety.RaceIsDecidedByServer | odooctl/adapters/wal_s3.py:2022-2052 | when two clients hold the current tag, either may go first and then the other cannot take effect |
| LeaseSafety.StoredBytesDecode | odooctl/adapters/wal_s3.py:1636-1772 | in every run the stored document is valid and its bytes decode to it under the strict reader |
| LeaseSafety.ReadIsSnapshot | odooctl/adapters/wal_s3.py:966-992 | a completed HEAD-GET-HEAD read hands on exactly the object stored at its last call |
| LeaseSafety.HandleIsOwnWrite | odooctl/adapters/wal_s3.py:1917-1967 | acquire and renew return a handle only when the stored object is the one that call built, whether or not its PUT raised |
| LeaseCalls.HandleWasRead | odooctl/adapters/wal_s3.py:966-992 | every handle that a client acts on, holds, was given or is answered is one that it read itself, and the write it names was stored then |
| LeaseCalls.ReadIsStable | odooctl/adapters/wal_s3.py:966-992 | at each of its calls so far a stable read has found content of one digest, first under the very head it started from |
| LeaseCalls.CreatedOnlyBy | odooctl/adapters/wal_s3.py:1859-1967 | a lease appears over an empty store only by an acquire called with its owner, purpose and ttl, as generation 1 under an identifier that client drew |
| LeaseCalls.RenewedOnlyBy | odooctl/adapters/wal_s3.py:1969-2020 | a stored lease is replaced only by a renewal whose call was given a handle of exactly that write and which read it before it expired; what it writes is the next generation |
| LeaseCalls.LeaseLeavesOnlyBy | odooctl/adapters/wal_s3.py:2022-2125 | a stored lease disappears only by a release whose call was given a handle of exactly that write, or by a recovery whose call repeated its identity and attestation, and either has read it; the recovery read it expired |
| LeaseCalls.AnswerMeets | odooctl/adapters/wal_s3.py:1774-2125 | however a call ends, it raises or its answer is what its own arguments and the store at that moment say, for each of the six calls |
| LeaseCalls.ReleasedStaysGone | odooctl/adapters/wal_s3.py:2022-2075 | once a release has returned, the write whose handle it was called with is stored in no later state |
| LeaseSafety.OnlyOwnerReleases | odooctl/adapters/wal_s3.py:2054-2075 | where clients renew and release only handles their own acquire or renew gave them, a lease is released only by the client that acquired it |
| LeaseSafety.StoppedStaysStopped | odooctl/adapters/wal_s3.py:2077-2125 | an owner-stopped attestation that was true stays true |
| LeaseSafety.MutualExclusion | odooctl/adapters/wal_s3.py:1841-2125 | with truthful attestations, and clients that release and renew only handles their own acquire or renew gave them and renew only while they hold, no two clients are ever both between acquire and release, even past expiry, and a held lease is the stored one |
| LeaseHeld.ExclusionUntilHeldIsDeleted | odooctl/adapters/wal_s3.py:1841-2125 | whatever handles are released and whatever is attested, no two clients are in their sections until a deletion takes effect on a lease that some client holds, if clients renew only what they hold |
| LeaseHeld.HeldIsStoredIff | odooctl/adapters/wal_s3.py:1841-2125 | over a whole run the lease a client holds is always the stored one if and only if no deletion takes effect on a lease that some client holds |
| LeaseHeld.OwnHandlesSpareHolders | odooctl/adapters/wal_s3.py:2022-2125 | truthful attestations and own handles are one way to meet that condition |
| LeaseProgress.QuietRead | odooctl/adapters/wal_s3.py:966-992 | a stable read over an unchanging object succeeds with that object |
| LeaseProgress.InspectSucceeds | odooctl/adapters/wal_s3.py:1774-1790 | inspecting returns a handle of the stored write, also to a client that did not acquire it |
| LeaseProgress.AcquireSucceeds | odooctl/adapters/wal_s3.py:1859-1967 | an uncontended acquire hands out the lease it built, also when its effective PUT raised |
| LeaseProgress.AssertReturnsIff | odooctl/adapters/wal_s3.py:1841-1857 | asserting a handle returns if and only if it names the stored write and that has not expired, and changes nothing |
| LeaseProgress.RenewProceedsIff | odooctl/adapters/wal_s3.py:1969-1977 | a renewal goes on to its PUT if and only if its handle names the stored write and that has not expired; otherwise it raises with nothing written |
| LeaseProgress.ReleaseProceedsIff | odooctl/adapters/wal_s3.py:2054-2069 | a release goes on to its DELETE if and only if its handle names the stored write, expired or not; otherwise it raises with nothing removed |
| LeaseProgress.ConfirmReturnsIff | odooctl/adapters/wal_s3.py:1917-2020 | after its PUT acquire or renew returns, and its client holds, the lease if and only if the document it built is stored and has not expired |
| LeaseProgress.RenewSucceeds | odooctl/adapters/wal_s3.py:1969-2020 | an uncontended renewal of an unexpired lease leaves its next generation stored and held |
| LeaseProgress.ReleaseSucceeds | odooctl/adapters/wal_s3.py:2054-2075 | an uncontended release of the stored lease empties the store, expired or not and whoever acquired it |
| LeaseProgress.RecoverProceedsIff | odooctl/adapters/wal_s3.py:2077-2125 | recovery goes on to its delete if and only if the lease has expired and the confirmation repeats its identity and attestation |
| LeaseProgress.ForeignReleaseBreaksExclusion | odooctl/adapters/wal_s3.py:2054-2075 | from any state with a held lease an idle client that inspects it, releases it and acquires is in its section together with the holder |
| LeaseProgress.RunWithForeignRelease | odooctl/adapters/wal_s3.py:1774-2075 | a whole run with truthful attestations that ends with two clients in their sections, because one released a handle it had inspected |
| ObjectStore.Bucket.Put | odooctl/adapters/wal_s3.py:844-893 | takes effect and returns, takes effect and raises, or raises without effect; nothing else changes |
| ObjectStore.Bucket.PutIfAbsent | odooctl/adapters/wal_s3.py:844-893 | the same under If-None-Match: an existing object is never replaced (section 13.1.2 of RFC 9110) |
| ObjectStore.Bucket.PutIfMatch | odooctl/adapters/object_filestore.py:466-532 | the same under If-Match: only the content whose tag was read is replaced (section 13.1.1 of RFC 9110) |
| ObjectStore.Bucket.Delete | odooctl/adapters/wal_s3.py:1093-1099 | removes one key, or raises with or without having done so |
| ObjectStore.Bucket.ListPage | odooctl/adapters/wal_s3.py:1029-1072 | an ascending page of keys after the token, possibly missing keys when listings are stale |
| ObjectStore.ListObjects | odooctl/adapters/s3.py:983-1034 | following continuation tokens collects, ascending and once each, stored keys of the prefix; all of them unless listings are stale |
| BaseBackup.BaseBackups.ReadVerified | odooctl/adapters/wal_s3.py:766-819 | returned bytes are stored, with the recorded and expected digest and size; which error is raised when |
| BaseBackup.BaseBackups.PutImmutable | odooctl/adapters/wal_s3.py:895-941 | existing content is never changed; success means this content is stored; a retry over identical content succeeds |
| BaseBackup.BaseBackups.UploadPayload | odooctl/adapters/wal_s3.py:1296-1312 | only payload is added, nothing stored changes, success means all of it is stored; over an interrupted upload it fails only if a call fails |
| BaseBackup.BaseBackups.VerifyPayload | odooctl/adapters/wal_s3.py:1314-1368 | success means every artifact is stored with its digest and size; fails only if one is not or a call fails |
| BaseBackup.BaseBackups.ListInventory | odooctl/adapters/wal_s3.py:1029-1072 | the listing is exactly the stored keys of the base |
| BaseBackup.BaseBackups.VerifyBase | odooctl/adapters/wal_s3.py:1314-1368 | success means marker, payload and inventory agree; a published base fails only if a call fails |
| BaseBackup.BaseBackups.PublishManifest | odooctl/adapters/wal_s3.py:1370-1419 | success means the inventory is exactly the declared artifacts and the marker; a marker this call created is gone again when it fails, unless its withdrawal raised; publishable payload is refused only if a call fails |
| BaseBackup.BaseBackups.UploadBase | odooctl/adapters/wal_s3.py:1421-1438 | success means an exact published base that holds the files of the tree, by digest and size, and nothing else; a tree that is not as declared changes nothing; retrying over whatever an interrupted upload left fails only if a call fails |
| BaseBackup.BaseBackups.DeleteBase | odooctl/adapters/wal_s3.py:1479-1513 | what is gone is a prefix of marker-then-sorted-payload; success leaves nothing of the base |
| BaseBackup.AnyRun | odooctl/adapters/wal_s3.py:1370-1513 | over any sequence of uploads, publications and deletions, at every call boundary a stored marker declares at least one file, none twice and not itself, and each is stored with its declared digest and size |
| PortableBackup.PortableBackups.Probe | odooctl/adapters/s3.py:409-425 | tells whether the fence is stored at the time of the call |
| PortableBackup.PortableBackups.AssertNotAbandoned | odooctl/adapters/s3.py:427-435 | passes only without a fence, and then nothing changed meanwhile |
| PortableBackup.PortableBackups.VerifyObject | odooctl/adapters/s3.py:795-823 | accepts exactly objects with the expected recorded digest and size |
| PortableBackup.PortableBackups.ReadVerified | odooctl/adapters/s3.py:825-892 | returned bytes are stored and have the expected digest; fails only if they do not or a call fails |
| PortableBackup.PortableBackups.RemoveMarker | odooctl/adapters/s3.py:750-760 | success means the marker is gone even when the listing did not show it |
| PortableBackup.PortableBackups.UploadObject | odooctl/adapters/s3.py:530-552 | a stored object carries its content and digest, and a safe bucket stays safe |
| PortableBackup.PortableBackups.UploadPayload | odooctl/adapters/s3.py:554-577 | nothing is written under a fence; the marker is gone before any payload changes; success means all payload is stored; no other object changes |
| PortableBackup.PortableBackups.CheckPublication | odooctl/adapters/s3.py:680-730 | success means expectations and remote payload agree and no fence is there; refuses good payload only for a fence or a failed call |
| PortableBackup.PortableBackups.UploadManifest | odooctl/adapters/s3.py:680-730 | the marker is stored only over verified payload; a rejected manifest leaves no marker, and a failed clean-up leaves none or the one there was; nothing is written under a fence |
| PortableBackup.PortableBackups.UploadBackup | odooctl/adapters/s3.py:732-748 | success means marker and payload are stored; a tree without the two declared artifacts, or with an empty one, changes nothing; any other fails only for a fence or a failed call; no other object changes |
| PortableBackup.PortableBackups.DeleteBackup | odooctl/adapters/s3.py:1236-1265 | fence and other backups are untouched; success leaves nothing but the fence unless listings are stale |
| PortableBackup.PortableBackups.ReadBackup | odooctl/adapters/s3.py:1081-1124 | what is read is exactly what is stored, and complete |
| PortableBackup.PortableBackups.VerifyBackup | odooctl/adapters/s3.py:1051-1079 | succeeds only for a complete backup with no fence at the final probe, and fails on one only for a fence or a failed call |
| PortableBackup.PortableBackups.DownloadBackup | odooctl/adapters/s3.py:1172-1234 | returns exactly the stored bytes of a complete backup, only with no fence at the final probe |
| PortableBackup.PortableBackups.IsListed | odooctl/adapters/s3.py:1036-1049 | an id is listed only with a marker and without a fence, and always then unless listings are stale |
| PortableBackup.AnyRun | odooctl/adapters/s3.py:554-748 | over any sequence of uploads, manifest uploads and deletions, at every call boundary a stored marker may be published and its two artifacts are stored with its digests, recorded digests are right, and an installed fence is never removed |
| FilestoreDocs.ManifestInjective | odooctl/adapters/object_filestore.py:215-234 | the stored document determines the generation |
| FilestoreDocs.ManifestFields | odooctl/adapters/object_filestore.py:215-234 | each field of the document is stored under its name |
| FilestoreDocs.EntryFields | odooctl/adapters/object_filestore.py:231-233 | each field of an inventory entry is stored under its name |
| FilestoreDocs.PointerRoundTrip | odooctl/adapters/object_filestore.py:420-464 | reading a written pointer document gives the pointer |
| FilestoreDocs.PointerChecked | odooctl/adapters/object_filestore.py:446-459 | what a reader has checked of the pointer it returns |
| FilestoreDocs.PointerAcceptedIff | odooctl/adapters/object_filestore.py:420-464 | of the pointers that are ever written a reader accepts exactly those of its own project and environment |
| Filestore.ObjectFilestore.PutManifest | odooctl/adapters/object_filestore.py:250-295 | a manifest is created once and never replaced |
| Filestore.ObjectFilestore.VerifyInventory | odooctl/adapters/object_filestore.py:346-375 | success means document and every content object are stored and verified; a stored generation fails only if a call fails |
| Filestore.ObjectFilestore.UploadInventory | odooctl/adapters/object_filestore.py:297-344 | success means the generation is stored and describes the source; a described tree fails only if a call fails or the id is taken |
| Filestore.ObjectFilestore.DownloadInventory | odooctl/adapters/object_filestore.py:377-418 | the downloaded tree has exactly the entry paths with inventoried content |
| Filestore.ObjectFilestore.DownloadIsSource | odooctl/adapters/object_filestore.py:377-418 | a download is the uploaded tree restricted to the inventory, however many paths share one object |
| Filestore.ObjectFilestore.ReadActive | odooctl/adapters/object_filestore.py:420-464 | the pointer read names a stored complete generation |
| Filestore.ObjectFilestore.PublishActive | odooctl/adapters/object_filestore.py:466-532 | the pointer moves only from the expected predecessor to a complete generation; success means it is active; a movable pointer is refused only if a call fails |
| Filestore.ObjectFilestore.DeleteManifest | odooctl/adapters/object_filestore.py:534-557 | removes only an inactive generation's document; every other generation stays complete |
| Filestore.RoundTrip | odooctl/adapters/object_filestore.py:297-557 | an upload is stored only if the generation is meant for this project, environment and location and every entry is a file of the tree with its digest and size, and then it is stored whole; under a free id it fails otherwise only if a call fails; after it and any later operations that do not delete it, a download gives back the inventoried files; at every call boundary the active generation is whole |
| ActivePointer.WriteReplacesExpected | odooctl/adapters/object_filestore.py:466-532 | an effective write happens while the active id is the one its call expected |
| ActivePointer.GenerationsFormOneChain | odooctl/adapters/object_filestore.py:466-532 | in every interleaving the effective generations form one chain whose last link is active |
| ActivePointer.PointerMovesByCompareAndSwap | odooctl/adapters/object_filestore.py:466-532 | every change of the pointer is one compare-and-swap that took effect |
| ActivePointer.SuccessWasReadBack | odooctl/adapters/object_filestore.py:515-532 | success is reported only by a read that finds this generation active |
| ActivePointer.QuietRead | odooctl/adapters/object_filestore.py:420-464 | undisturbed, the three reads of a publisher lead to its decision on the pointer that is stored |
| ActivePointer.DecisionIs | odooctl/adapters/object_filestore.py:466-532 | a publisher is done if its generation is active, writes if and only if the active id is the one it expects, and after its write succeeds if and only if its generation is active |
| ActivePointer.PublishSucceeds | odooctl/adapters/object_filestore.py:466-532 | an undisturbed publisher that expects the active id gets its generation published, also if its write raised |
| WalArchive.BytesNeverChange | odooctl/adapters/wal_s3.py:844-893 | the bytes under a key never change between deletions of it |
| WalArchive.ReceiptsAgree | odooctl/adapters/wal_s3.py:821-893 | two receipts of one key with no deletion between have equal digest and size, idempotent or not |
| WalArchive.ReceiptMatchesStore | odooctl/adapters/wal_s3.py:821-893 | a receipt describes the stored object until the key is deleted |
| WalArchive.ReceiptOfItsCall | odooctl/adapters/wal_s3.py:844-893 | a receipt is what the call that returns it was asked to store, by key, size and digest; one that is not idempotent comes from the call that created the object |
| WalArchive.ArchivesIff | odooctl/adapters/wal_s3.py:844-893 | undisturbed, archiving returns a receipt if and only if the key was free or held these very bytes, and then they are stored |
| ReceiptStore.NeverReplaced | odooctl/metadata/store.py:618-646 | with any number of racing writers, what a path names never changes |
| ReceiptStore.OnePublisher | odooctl/metadata/store.py:618-646 | at most one writer publishes a path, and every other one that returns is given the text it published |
| ReceiptStore.SavedReceiptsAgree | odooctl/metadata/store.py:392-420 | two writers that save a receipt under one path have saved the same receipt, and it is the one stored |
| ReceiptStore.ReceiptStore.WriteImmutable | odooctl/metadata/store.py:618-646 | among other writers, changes nothing that existed; which of publication, collision and a path that is no regular file was met |
| ReceiptStore.ReceiptStore.SaveReceipt | odooctl/metadata/store.py:392-420 | saved if and only if the stored text decodes to this receipt, invalid if and only if it does not decode |
| EbsSnapshot.CountsDecide | odooctl/adapters/snapshots.py:440-471 | the four comparisons hold if and only if there is exactly one snapshot per volume in scope and none is shared |
| EbsSnapshot.CandidatesDecide | odooctl/adapters/snapshots.py:450-471 | filtering the items and then asking for one snapshot per volume asks exactly that of the items that name both |
| EbsSnapshot.ByVolume | odooctl/adapters/snapshots.py:449-449 | the dictionary keeps each volume once, in order of first appearance, with its last item |
| EbsSnapshot.RecordSnapshot | odooctl/adapters/snapshots.py:440-537 | accepted if and only if the items that name both ids are one for each volume in scope and none twice; then each volume is listed once, in order of first appearance, with the snapshot and state of its item and size, type, iops, throughput, encryption, key, zone, device and root flag of its last metadata item, each under its own name; the state is unknown exactly when none was given; complete and failed say what the states say |
| EbsSnapshot.RestoresToDistinctVolumes | odooctl/adapters/snapshots.py:1067-1118 | a set recorded so restores to pairwise distinct volumes |
| EbsRestore.TokenNamesSnapshot | odooctl/adapters/snapshots.py:798-815 | within one manifest and zone two resources have one token exactly if they name one snapshot |
| EbsRestore.TokenNamesZone | odooctl/adapters/snapshots.py:804-815 | the tokens of one resource in two zones differ |
| EbsRestore.RequestedVolume | odooctl/adapters/snapshots.py:798-862 | the volume a request creates is of the snapshot, in the recovery zone, carries the five tags with their values, and has the recorded type and performance as far as these can be asked for |
| EbsRestore.ValidatedIff | odooctl/adapters/snapshots.py:963-1033 | a volume passes for a resource exactly if it is of its snapshot and zone, unattached, as recorded where anything is, and carries the five tags with their values |
| EbsRestore.PlannableIff | odooctl/adapters/snapshots.py:864-881 | what a manifest must be for a restore to be planned |
| EbsRestore.NewVolumeValidatedIff | odooctl/adapters/snapshots.py:816-862 | a volume made from the request passes validation exactly if what the request leaves open comes out as recorded |
| EbsRestore.SharedVolumeIsSharedSnapshot | odooctl/adapters/snapshots.py:1067-1118 | two resources share a volume exactly when they name one snapshot |
| EbsRestore.PrefixesOfOneList | odooctl/adapters/snapshots.py:1119-1130 | any two reported lists agree as far as both go |
| EbsRestore.Cloud.CreateVolume | odooctl/adapters/snapshots.py:1086-1112 | idempotent per client token, with an error when the request differs, and possibly effective although it raises |
| EbsRestore.Cloud.DescribeByTag | odooctl/adapters/snapshots.py:920-939 | at most one volume carries a token's tag, and it is the one that token was granted |
| EbsRestore.EbsProvider.FindRestoredVolume | odooctl/adapters/snapshots.py:920-939 | a volume found is the one granted to this token |
| EbsRestore.EbsProvider.ReconcileUncertain | odooctl/adapters/snapshots.py:941-961 | after an uncertain creation a volume found is the one granted to this token |
| EbsRestore.EbsProvider.ObtainVolume | odooctl/adapters/snapshots.py:1082-1115 | the volume of a resource is the one granted to its token; at most this one request is sent |
| EbsRestore.EbsProvider.CreateAll | odooctl/adapters/snapshots.py:1075-1130 | reports are growing lists of the volumes of the first resources; stops only on a failed call or an unfit volume |
| EbsRestore.EbsProvider.AllValidated | odooctl/adapters/snapshots.py:963-1033 | true if every described volume is what its resource asks for, false if some one is not |
| EbsRestore.EbsProvider.Poll | odooctl/adapters/snapshots.py:1134-1170 | available only when every volume is described, validated, unattached and available; waiting only when some volume is not |
| EbsRestore.PairsDecide | odooctl/adapters/snapshots.py:1042-1061 | comparing the sets of pairs and the states decides whether every snapshot of the set is still there and complete |
| EbsRestore.EbsProvider.ValidateAccountScope | odooctl/adapters/snapshots.py:782-792 | passes exactly manifests of this account, or of none, unless a call fails |
| EbsRestore.EbsProvider.AssertRemoteComplete | odooctl/adapters/snapshots.py:1035-1065 | passes exactly complete remote sets unless a call fails |
| EbsRestore.EbsProvider.Preflight | odooctl/adapters/snapshots.py:1073-1076 | passes exactly restorable manifests unless a call fails |
| EbsRestore.EbsProvider.Restore | odooctl/adapters/snapshots.py:1067-1196 | reports and results list the granted volumes of the first resources in manifest order; complete means exactly that each is validated, unattached and available now; a refusal means a manifest that is not restorable or a failed call, a failure an unfit volume or a failed call |
| EbsRestore.EbsProvider.Attempts | odooctl/adapters/snapshots.py:1067-1196 | attempt by attempt, outcome and reports belong together, and over any number of attempts cut off anywhere all reports are prefixes of one list; nothing but this manifest's volumes was asked for |
| KubernetesName.NameIsLabel | odooctl/adapters/kubernetes.py:29-35 | a derived name is a label of at most 63 letters, digits and single inner hyphens |
| KubernetesName.NamedIff | odooctl/adapters/kubernetes.py:29-35 | a name is derived exactly when the lower-cased value has an ASCII letter or digit |
| KubernetesName.LabelNamesItself | odooctl/adapters/kubernetes.py:29-35 | naming twice is naming once |
| KubernetesName.GapBecomesHyphen | odooctl/adapters/kubernetes.py:29-35 | whatever has neither letter nor digit between two labels becomes one hyphen, before and after them it goes, and only what is over 63 characters is cut |
| Rollout.PatchBackRestoresIff | odooctl/adapters/kubernetes.py:549-573 | merging the old selector back restores it if and only if the candidate's patch brought no new label |
| Rollout.RevisionLabelRemains | odooctl/adapters/kubernetes.py:549-573 | so a promoted and rolled-back canonical Service keeps the revision label and no longer selects pods without it |
| Rollout.CanonicalServedIff | odooctl/adapters/kubernetes.py:656-678 | after the canonical resources were applied, canonical pods are served exactly if apply dropped the labels it was not given or they carry them all |
| Rollout.FinalizedServesCanonicalIff | odooctl/adapters/kubernetes.py:611-616 | a promoted and finalized Service serves canonical pods without a revision label exactly if apply dropped that label from its selector |
| Rollout.PromotionServesCandidateIff | odooctl/adapters/kubernetes.py:575-581 | a promoted Service reaches the candidate exactly if every label left in its selector is one the candidate carries |
| Rollout.CanonicalExcludesCandidate | odooctl/adapters/kubernetes.py:393-446 | the canonical selector never selects candidate pods, and the candidate selector does |
| Rollout.OwnedIff | odooctl/adapters/kubernetes.py:38-44 | an object passes an ownership check exactly if it carries the four labels with their values |
| Rollout.CandidateOwnedIff | odooctl/adapters/kubernetes.py:411-411 | the candidate check asks in addition for the first 16 characters of the revision |
| Rollout.RevisionsToldApart | odooctl/adapters/kubernetes.py:411-411 | candidates of two revisions pass one another's check if and only if the revisions agree in their first 16 characters |
| Rollout.SelectsIff | odooctl/adapters/kubernetes.py:412-417 | which pods the canonical and the candidate selector select |
| Rollout.KubernetesRuntime.ItemsAre | odooctl/adapters/kubernetes.py:402-446 | a candidate consists of its Deployment, its Service and, for a canary only, its Ingress |
| Rollout.KubernetesRuntime.ResourcesAre | odooctl/adapters/kubernetes.py:288-295 | the canonical resources are the namespace, the volume claim and the workload's Deployment, Service and Ingress |
| Rollout.KubernetesRuntime.OwnersDiffer | odooctl/adapters/kubernetes.py:297-338 | no object passes both the canonical and the candidate ownership check |
| Rollout.KubernetesRuntime.AssertOwnedOrAbsent | odooctl/adapters/kubernetes.py:297-338 | passes exactly owned objects, and absent ones where allowed, unless the call fails |
| Rollout.KubernetesRuntime.Up | odooctl/adapters/kubernetes.py:656-678 | success means every canonical resource, namespace and volume claim included, carries the canonical labels and the Service the canonical selector; no other object changes, and none that was there unowned; refused only for an object that is not owned or a failed call |
| Rollout.KubernetesRuntime.Begin | odooctl/adapters/kubernetes.py:485-547 | success means the candidate's Deployment and Service, and for a canary its Ingress, carry the candidate's labels and its Service the candidate's selector, or for the other strategies the canonical resources are applied; no other object changes, a blue-green Ingress included, and none that was there unowned; the workload's selector is unchanged; if it excluded the candidate the rollout is guarded; which conditions refuse it |
| Rollout.KubernetesRuntime.Promote | odooctl/adapters/kubernetes.py:575-581 | the selector becomes the merge of both or stays, and promoted records which |
| Rollout.KubernetesRuntime.DeleteCandidate | odooctl/adapters/kubernetes.py:583-609 | success leaves no candidate Deployment or Service, and for a canary no Ingress; every other object stays, and so does one that is not the candidate's own; Deployment first; every guard is kept |
| Rollout.KubernetesRuntime.Finalize | odooctl/adapters/kubernetes.py:611-616 | a Deployment being served is deleted exactly when one is deleted that the Service of a workload other than the configured one selects at the call; success deletes the candidate and leaves every canonical resource labelled and its selector applied; no other object changes |
| Rollout.KubernetesRuntime.Rollback | odooctl/adapters/kubernetes.py:618-648 | a promoted Service is patched back first, an owned Deployment undone when there is no candidate; no object but the candidate's changes; a served Deployment is deleted exactly when one is deleted that the selector then in force selects, so never from a guarded rollout |
| Rollout.KubernetesRuntime.AnyRun | odooctl/adapters/kubernetes.py:485-648 | for any sequence of operations on any workload whose Service did not select the candidate: whichever calls fail, no selected Deployment is deleted for the configured workload or without a finalization after a promotion; if no call fails, one is deleted exactly when the first operation that is not a promotion finalizes another, promoted workload whose Service then selects the candidate |
| Rollout.KubernetesRuntime.BeginAndRollback | odooctl/adapters/kubernetes.py:485-648 | an unpromoted rollback deletes an unselected Deployment if and only if the Service did not select it at the beginning |
| Rollout.KubernetesRuntime.SecondBegin | odooctl/adapters/kubernetes.py:485-648 | a promoted rollout begun again for the same revision and rolled back deletes a served Deployment, if no call fails |
| Rollout.KubernetesRuntime.ForeignFinalize | odooctl/adapters/kubernetes.py:485-616 | a promotion and a finalization of another workload beside a lone canonical Service delete a served Deployment, if no call fails |
| BackupIndex.ListedIff | odooctl/metadata/store.py:140-142 | an id is listed exactly unless it ends in -latest |
| BackupIndex.EntryIsLatestIff | odooctl/metadata/store.py:99-102 | an entry and a latest pointer share a file exactly when the id spells the pointer |
| BackupIndex.EntriesAreDesiredIff | odooctl/metadata/store.py:139-154 | the readable entries of the environment become exactly the desired ones if and only if no other file claims a desired id |
| BackupIndex.SynchronizedFile | odooctl/metadata/store.py:139-154 | file by file: a desired entry is stored under its id, a readable entry of the environment that is not desired goes, anything else stays |
| BackupIndex.OtherEntriesUntouchedIff | odooctl/metadata/store.py:139-154 | another environment's entries are untouched if and only if none is filed under a desired id |
| BackupIndex.MisnamedEntryStays | odooctl/metadata/store.py:139-154 | a file of another name that claims a desired id stays beside the desired entry |
| BackupIndex.ForeignEntryIsOverwritten | odooctl/metadata/store.py:150-154 | another environment's entry filed under a desired id is overwritten |
| BackupIndex.ConsistentIsExact | odooctl/metadata/store.py:112-154 | in a consistent index both hold, for the index as synchronizing leaves it, pointer included |
| BackupIndex.MetadataStore.Save | odooctl/metadata/store.py:51-68 | entry and pointer hold the manifest and nothing else changes, or nothing on a refused identity |
| BackupIndex.UpdateKeepsPointers | odooctl/metadata/store.py:83-110 | an update never changes which id a latest pointer names, unless the updated id spells that pointer |
| BackupIndex.MetadataStore.Update | odooctl/metadata/store.py:83-110 | the entry holds the whole manifest, and so does the pointer of its environment if it named that backup; every other file is as before; every environment's latest id before and after |
| BackupIndex.MetadataStore.Collect | odooctl/metadata/store.py:124-137 | accepts exactly manifests of this environment with safe and distinct ids |
| BackupIndex.MetadataStore.Prune | odooctl/metadata/store.py:139-148 | removes exactly the stale entries of the environment |
| BackupIndex.MetadataStore.WriteAll | odooctl/metadata/store.py:150-154 | writes exactly the desired entries |
| BackupIndex.MetadataStore.FindNewest | odooctl/metadata/store.py:161-168 | no backup has a later timestamp, and of those with the same timestamp none a greater id |
| BackupIndex.MetadataStore.Synchronize | odooctl/metadata/store.py:112-178 | the whole new state: refused input changes nothing; latest is the named entry or the newest; a missing latest id is reported only after entries changed |
| BackupIndex.SynchronizeConsistent | odooctl/metadata/store.py:112-178 | synchronizing keeps a consistent index consistent |
| BackupIndex.RefusedPointerIff | odooctl/metadata/store.py:169-174 | after a refusal at the end the old pointer is still a copy of an entry exactly when its backup is kept unchanged |
| BackupIndex.RefusedConsistentIff | odooctl/metadata/store.py:139-174 | a synchronization refused at its end keeps a consistent index consistent exactly if there was no pointer or its backup is kept unchanged |
| BackupIndex.SynchronizeOwned | odooctl/metadata/store.py:112-178 | synchronizing keeps a consistent index consistent, except exactly when it is refused at its end and drops or changes the backup named latest before |
| BackupIndex.AnyRun | odooctl/metadata/store.py:51-178 | over any sequence of saves, updates and synchronizations, refused ones included that keep the backup named latest before, every entry is filed under its id and every pointer is a copy of an entry of its environment |
| EnvironmentGraph.OdooCtlConfig.CheckEnvironment | odooctl/config.py:1118-1189 | comparing with the last seen accepts exactly what comparing with every earlier environment would |
| EnvironmentGraph.OdooCtlConfig.CheckEnvironments | odooctl/config.py:1069-1189 | the first loop accepts exactly graphs whose environments are each valid and pairwise compatible |
| EnvironmentGraph.OdooCtlConfig.CheckTemporaryNames | odooctl/config.py:1192-1206 | the second loop accepts exactly graphs in which no temporary name is another environment's live name |
| EnvironmentGraph.OdooCtlConfig.ValidateEnvironmentGraph | odooctl/config.py:1061-1207 | accepts exactly the acceptable graphs and fills only unset connection fields |
| EnvironmentGraph.IdentityIsPair | odooctl/config.py:1152-1163 | the identity string is as good as the (volume, path) pair |
| EnvironmentGraph.AcceptedIsCollisionFree | odooctl/config.py:1061-1207 | accepted databases, branches and filestores are pairwise distinct, one domain means one stack with selectors, and no temporary name is any live or other temporary name |
| EnvironmentGraph.AcceptedRefersTo | odooctl/config.py:1074-1189 | in an accepted graph every reference names another environment, production is no clone, each rollout is one the runtime can do, and every feature that is on has its environment and runtime |
| EnvironmentGraph.ResolvedIsAccepted | odooctl/config.py:1061-1207 | with no optional feature on and every rollout recreating, resolving references and differing where environments must is enough to be accepted |
| OperationQueue.ClaimedAtMostOnce | odooctl/api/queue.py:110-127 | with any number of runners an operation is returned by at most one claim of the run, with the entry enqueued |
| OperationQueue.ExactlyOneStatus | odooctl/api/queue.py:97-137 | each enqueued operation is in exactly one of temporary, pending, running, failed, corrupt, cancelled and completed, and its text is intact |
| OperationQueue.PlaceChanges | odooctl/api/queue.py:97-137 | how an operation's file can leave its place: published, cancelled or claimed, completed, failed or set aside by the runner that has it in hand; failed and corrupt ones stay |
| OperationQueue.ReadClaimsIff | odooctl/api/queue.py:117-126 | a read claims the entry if and only if it succeeds and the text decodes; otherwise the runner sets it aside next |
| OperationQueue.CancelTouchesOnlyPending | odooctl/api/queue.py:103-108 | cancelling removes at most the pending entry, which is then never claimed, and touches nothing else |
| OperationQueue.OperationQueue.Enqueue | odooctl/api/queue.py:97-101 | the entry is pending with its text and nothing else changed |
| OperationQueue.OperationQueue.Candidates | odooctl/api/queue.py:112-115 | exactly the pending entries, oldest first |
| OperationQueue.OperationQueue.ClaimNext | odooctl/api/queue.py:110-127 | a lone runner gets the oldest readable entry; only unreadable entries no younger are set aside; every other file is as it was |

## Left out

- Reads are bounded in the program (64 KiB for coordination objects, 32 MiB for manifests); sizes here are unbounded.
- The digit limit of Python's integer parser and its recursion limit: the JSON reader here accepts any depth and length.
- Duplicate object keys and `NaN` literals are read as Python's reader reads them; other readers are not considered.
- A client process makes one lease call at a time; `uuid4` identifiers are fresh; clock-skew checks and sleeps only show
  as calls that may raise.
- LeaseSafety.MutualExclusion: a client that renews a lease it has asked to release, after that release failed, is not
  covered; an owner-stopped attestation is about owners that will not do so.
- A DELETE whose effect arrives after its reply was lost and another call was made.
- Pins as a protocol (`create_pitr_pin`, `list_pitr_pins`, `release_pitr_pin`): only their documents are modelled.
- Manifest documents of portable and base backups are parameters that give the declared digests; the checks inside
  `_upload_manifest_expectations`, `_backup_manifest_expectations` and `_parse_base_manifest` add only easy members.
- More than one actor publishing or deleting one base or portable backup id: the code checks and then acts, so its
  guarantees are per actor.
- A publisher racing `delete_migration_manifest`, for the same reason: `Filestore` runs whole operations one at a time,
  and `ActivePointer` interleaves publishers only.
- Artifacts of a portable backup other than `db.dump` and `filestore.tar`: the upload path verifies only those remotely.
- Local files and directories beside the remote protocols: temporary names, fsync, directory replacement, streaming.
- Credentials, endpoints, server-side encryption arguments, secret redaction, error texts.
- EbsRestore.EbsProvider.Restore: restore tags are only set by CreateVolume; volume and snapshot states are compared as
  the provider spells them, in lower case.
- EbsSnapshot.RecordSnapshot: scope, consistency and note texts of the recorded snapshot are not part of the result;
  states are taken in lower case.
- Rollout.KubernetesRuntime.Up: kubectl's apply may keep or drop selector labels it was not given.
- Rollout.KubernetesRuntime.Rollback: undo and restart of a rolling or recreated Deployment change no label or selector
  here.
- OperationQueue.ClaimedAtMostOnce: operation ids are unique, as their issuer makes them; two file names for one id are
  not considered.
- OperationQueue.OperationQueue.ClaimNext: the lone runner's renames do not fail; entries of equal modification time
  come in any order.
- BackupIndex.MetadataStore.Synchronize: writes are atomic and the directory is not changed by others meanwhile.
- `deep_merge`, `validate_identifier`, field validators, snapshots and restores of other providers, PITR restore and
  filestore-migration lifecycles, command line, HTTP routes and rendering: easy members or sequences of external calls.
