# aionFS volume-metadata lifecycle, modelled in Dafny

aionFS keeps metadata for persistent volumes: who owns a volume, how it is exported, whether a
consumer session has it attached, the snapshots taken of it, and checkpoint manifests that name
one snapshot per volume. A JSON file holds the state. A single in-process `FileStore` owns that
file. Every mutation changes the in-memory maps and then rewrites the whole file through a
temporary file and a rename. HTTP handlers sit on top of the store. They check ownership: in
token mode the caller is the principal the token names, otherwise no one. They fill in defaults,
generate `vol-`, `sess-`, `snap-` and `chk-` identifiers, and call the store.

The model has these modules:

- `Wrappers`: `Option` and `Result`.
- `Ids`: the generated identifiers, a prefix followed by the lower-cased first eight characters of
  a UUID.
- `Store`:
  - the records (`Volume`, `MountInfo`, `Session`, `Snapshot`, `Checkpoint`);
  - the state as three maps;
  - the pure effect of each mutation (`PutVolumeState`, `AppendSnapshot`, `PutCheckpointState`,
    `RemoveVolume`);
  - the `FileStore` class, whose methods update its maps in place. The class has a ghost
    `persisted` field for the content of the state file;
  - lemmas over whole histories of mutations.
- `Lifecycle`: the decisions the handlers make, as functions on records (create, attach, detach,
  which volumes a checkpoint may name, which manifests a listing shows), plus the session
  invariant and its preservation.
- `HttpApi`: one method per handler, driving a `FileStore` through the decision functions and
  proved against them.
- `Scenario`: a client that creates, attaches, detaches and checkpoints one volume, using only
  the handlers' contracts.

Outside inputs become parameters:

- the token principal: `Caller`, which is `None` when no token provider is configured;
- the fresh UUIDs;
- the clock reading `now`;
- whether the flush of the state file succeeds: `ioOk`.

A failed flush leaves the file as it was, because the rename is atomic. The in-memory change is
kept anyway, as in the source.

Behaviours of the code worth knowing, each stated as written:

- Attach is the one handler whose ownership check does not use the token. Get, detach, delete,
  snapshot creation and listing, and checkpoint creation compare the token's principal with the
  owner. Attach compares the principal named in the request body with the owner, and uses the
  token's principal only when the body names none (internal/httpapi/server.go:241-252). In token
  mode a caller that is not the owner can therefore attach the volume by naming the owner in the
  body. `Lifecycle.AttachChecksBodyPrincipal` states this.
- Attach accepts a volume in any state. Re-attaching an attached volume replaces its session.
- Listing checkpoints keeps a manifest whose snapshot ids are held by no history. Only ids that
  resolve to a volume the caller does not own exclude it.
- Deleting a volume does not remove its snapshot history or the manifests that name it. The
  snapshot lookup scans every history, deleted volumes' included
  (internal/store/store.go:188-199). A snapshot of a deleted volume therefore still resolves to
  the deleted id, which nobody owns. Deleting one's own volume hides one's own manifests that name
  its snapshots. `Lifecycle.DeletedVolumeHidesManifest` states this.

## Model

| member | source | states |
|---|---|---|
| Ids.GeneratedId | internal/httpapi/server.go:145 | a generated id is the prefix followed by exactly eight characters; for a UUID those are lower-case hex digits |
| Store.Stamped | internal/store/store.go:136-146 | an upsert sets UpdatedAt to now; CreatedAt is kept from the stored record when that is non-zero, and is now otherwise; every other field is the caller's |
| Store.PutVolumeState | internal/store/store.go:133-147 | an upsert stores the stamped record under its id and leaves every other volume, all histories and all manifests unchanged |
| Store.AppendSnapshot | internal/store/store.go:161-162 | adding a snapshot appends it to the end of that volume's history (an absent history counts as empty) and changes nothing else |
| Store.PutCheckpointState | internal/store/store.go:202-206 | storing a manifest puts it under its own id, replacing any manifest with that id, and changes nothing else |
| Store.RemoveVolume | internal/store/store.go:230 | deleting removes only that volume's record; histories and manifests stay |
| Store.FileStore.FromFile | internal/store/store.go:234-263 | loading a missing file gives empty maps; loading a stored state gives exactly that state |
| Store.NewFileStore | internal/store/store.go:78-90 | opening fails with an I/O error iff the state file cannot be read or decoded; otherwise the store holds the file's state, or empty maps for a missing file |
| Store.FileStore.FlushLocked | internal/store/store.go:271-295 | a successful flush writes the current state to the file; a failed one reports an I/O error and leaves the file as it was |
| Store.FileStore.Close | internal/store/store.go:93-95 | closing is a final flush, with the same outcome |
| Store.FileStore.ListVolumes | internal/store/store.go:98-106 | returns every stored volume exactly once, in some key order: as many records as volumes, each a stored one, every stored one present |
| Store.FileStore.ListVolumesByOwner | internal/store/store.go:109-119 | returns exactly the stored volumes whose owner is the given principal, each once: every returned record is stored and owned by the principal, every such record is returned |
| Store.FileStore.GetVolume | internal/store/store.go:122-130 | returns the stored record, or not-found iff no volume has that id |
| Store.FileStore.PutVolume | internal/store/store.go:133-152 | the maps become PutVolumeState of the old ones whether or not the flush succeeds; the answer is the stamped record, or an I/O error; the file holds the new state only after a successful flush; volumes stay keyed by their ids |
| Store.FileStore.AddSnapshot | internal/store/store.go:155-167 | an unknown volume is refused with not-found and nothing changes; otherwise the snapshot is appended (AppendSnapshot) and returned, or an I/O error is answered after the append |
| Store.FileStore.ListSnapshots | internal/store/store.go:170-174 | returns the volume's history in insertion order, empty when it has none |
| Store.FileStore.LatestSnapshot | internal/store/store.go:177-185 | returns the last snapshot of the history, and none iff the history is empty |
| Store.FileStore.VolumeIdForSnapshot | internal/store/store.go:188-199 | a returned volume holds the snapshot id; none is returned iff no history holds it |
| Store.FileStore.PutCheckpoint | internal/store/store.go:202-210 | the maps become PutCheckpointState of the old ones; the manifest is returned, or an I/O error after the change |
| Store.FileStore.ListCheckpoints | internal/store/store.go:213-221 | returns every stored manifest exactly once: as many manifests as are stored, each a stored one, every stored one present |
| Store.FileStore.DeleteVolume | internal/store/store.go:224-232 | an unknown id is refused with not-found and nothing changes; otherwise the maps become RemoveVolume of the old ones, then the flush outcome is reported |
| Store.HistoriesOnlyGrow | internal/store/store.go:155-167 | after any sequence of store mutations, each volume's earlier history is a prefix of its later one |
| Store.CreationTimeIsKept | internal/store/store.go:138-146 | while a volume is not deleted, no sequence of mutations changes its non-zero creation time |
| Store.CreationStampIsKept | internal/store/store.go:136-146 | a volume created at a non-zero clock reading has that reading as its creation time after any later mutations that do not delete it |
| Store.ManifestsAreNeverRemoved | internal/store/store.go:224-232 | no sequence of mutations removes a manifest, not even deleting the volumes it names |
| Store.MutationsKeepKeys | internal/store/store.go:147 | every sequence of mutations keeps each volume stored under its own id |
| Lifecycle.NewVolume | internal/httpapi/server.go:127-161 | missing-owner iff there is neither a body owner nor a token; principal-mismatch iff a token names someone other than the body owner; otherwise the owner is the token's principal or the body owner, export mode and class default to "fs" and "persistent", the mount path is under /run/aionfs/mounts, and the volume starts available with no session |
| Lifecycle.AttachDecision | internal/httpapi/server.go:241-264 | missing-principal iff neither the body nor a token names one; success iff the acting principal is the owner; success marks the volume and its mount attached with a session for the owner (the given or the generated session id, the consumer endpoint, now) and changes nothing else |
| Lifecycle.DetachDecision | internal/httpapi/server.go:296-309 | refused with principal-mismatch iff a token names someone other than the owner; otherwise the volume and its mount become available, the session is cleared, and nothing else changes |
| Lifecycle.DetachIsIdempotent | internal/httpapi/server.go:307-309 | detaching a detached volume gives the same record again |
| Lifecycle.AttachChecksBodyPrincipal | internal/httpapi/server.go:241-252 | in token mode, a non-owner caller whose body names the owner is allowed to attach, and the session is recorded for the owner |
| Lifecycle.RunKeepsSessionInvariant | internal/httpapi/server.go:257-264 | across any sequence of attach and detach requests a session is present iff the volume is attached, the mount state matches the attach state, and the owner and id stay the same |
| Lifecycle.SessionInvariantFromCreation | internal/httpapi/server.go:155-160 | a newly created volume, followed by any attach/detach sequence, keeps the session invariant |
| Lifecycle.PutKeepsSessionInvariant | internal/store/store.go:136-147 | upserting a consistent record keeps every stored record consistent |
| Lifecycle.FilterIsExactForUniqueIds | internal/httpapi/server.go:534-543 | when no snapshot id occurs in two histories, "no resolved holder is unowned" is the same as "every holder is owned" |
| Lifecycle.DeletedVolumeHidesManifest | internal/store/store.go:188-199 | when no snapshot id occurs in two histories and volumes are keyed by id, a manifest naming a snapshot of a deleted volume is hidden from every principal's token-mode listing, because the snapshot still resolves to the deleted id, which nobody owns |
| HttpApi.HandleCreateVolume | internal/httpapi/server.go:113-170 | a refused create (NewVolume) changes nothing; otherwise the store gets the new `vol-` volume with the PutVolume effect, answer and file outcome; the session invariant and id keying are preserved |
| HttpApi.HandleListVolumes | internal/httpapi/server.go:172-186 | lists exactly the volumes the caller may see (its own in token mode, all otherwise), each once; every listed record is stored and visible to the caller, every visible record is listed |
| HttpApi.HandleGetVolume | internal/httpapi/server.go:188-212 | not-found for an unknown id, principal-mismatch for another owner's volume in token mode, else the stored record |
| HttpApi.HandleAttachVolume | internal/httpapi/server.go:220-273 | an unknown volume is not-found and a refused attach changes nothing; otherwise the attached record (AttachDecision, `sess-` id) is upserted with the PutVolume outcome; the session invariant is preserved |
| HttpApi.HandleDetachVolume | internal/httpapi/server.go:279-317 | an unknown volume is not-found and a refused detach changes nothing; otherwise the detached record is upserted with the PutVolume outcome; the session invariant is preserved |
| HttpApi.HandleDeleteVolume | internal/httpapi/server.go:319-350 | an unknown id is not-found and another owner's volume is principal-mismatch, neither changing anything; otherwise only that volume's record is removed and the flush outcome is answered |
| HttpApi.HandleCreateSnapshot | internal/httpapi/server.go:375-420 | not-found or principal-mismatch change nothing; otherwise a `snap-` snapshot with the note and now is appended to the volume's history and returned, or a store failure is answered |
| HttpApi.HandleListSnapshots | internal/httpapi/server.go:422-446 | not-found or principal-mismatch, else the volume's whole history |
| HttpApi.DefaultVolumeIds | internal/httpapi/server.go:461-473 | with no ids requested, a checkpoint covers every volume the caller may act on, each once; when volumes are stored under their own ids, the list is duplicate-free and consists of exactly the visible volume ids |
| HttpApi.ResolveLatest | internal/httpapi/server.go:476-500 | an id that may not be named is refused (invalid-volume if unknown, else principal-mismatch) with nothing changed; a volume with history answers its latest snapshot id; one without history gets a single auto-generated `snap-` snapshot, whose id is answered; any answered id is the volume's latest snapshot afterwards |
| HttpApi.AutoCreationStep | internal/httpapi/server.go:486-499 | giving the next requested volume without history its first snapshot keeps "only auto-created snapshots were added" |
| HttpApi.ResolvedStep | internal/httpapi/server.go:476-500 | creating a snapshot for the current volume does not change the latest snapshot of the volumes already resolved, so the resolved prefix grows by the current volume's latest id |
| HttpApi.AutoIdStep | internal/httpapi/server.go:486-499 | after resolving the next requested volume, every volume given its first snapshot so far, at its first position in the request, holds the `snap-` id drawn at that position |
| HttpApi.FreshEntryIsDrawnId | internal/httpapi/server.go:486-499 | a requested volume that had no history and has one after the loop has as its latest snapshot the `snap-` id drawn at its first position |
| HttpApi.CollectStep | internal/httpapi/server.go:476-500 | one pass of the loop: a resolved id extends the collected prefix; a refusal ends the loop at the first inadmissible id with only earlier ids touched; a failed flush ends it at the first auto-creation, whose snapshot memory keeps |
| HttpApi.CollectLatest | internal/httpapi/server.go:475-501 | with one flush outcome per request: the loop answers, in request order, the latest snapshot id of each requested volume, auto-creating one for a volume without history, whose id comes from the UUID drawn at that volume's first position; it stops at the first id that may not be named, and only the ids before it can have gained a snapshot; a store failure comes only from a failed flush of the first auto-created snapshot, which memory keeps while no later id is touched; volumes and manifests are untouched |
| HttpApi.HandleCreateCheckpoint | internal/httpapi/server.go:448-517 | with one flush outcome per request: success iff the flush succeeds and every requested (or default) volume may be named; the manifest has a `chk-` id, the note, now, and per volume in order its latest snapshot id, which for a volume without history is the `snap-` id drawn at its first position; on refusal the first inadmissible id decides the error, only ids before it gained snapshots and no manifest is stored; a store failure comes only from a failed flush, either of the first auto-created snapshot (kept in memory, later ids untouched, no manifest) or of the manifest itself (no snapshot added, the manifest kept in memory) |
| HttpApi.HandleListCheckpoints | internal/httpapi/server.go:519-552 | without a token every manifest is listed; with one, every listed manifest has each snapshot id either held by no history or held by an owned volume, and every manifest whose holders are all owned is listed |
| HttpApi.VolumeIdsOf | internal/httpapi/server.go:465-471 | the default id list holds the listed volumes' ids, one per volume, in listing order |
| HttpApi.OwnedVolumeIds | internal/httpapi/server.go:530-533 | the owned set the listing builds is exactly the set of ids of the caller's volumes |
| HttpApi.ManifestVisible | internal/httpapi/server.go:535-542 | a manifest is kept only if each of its snapshot ids is held by no history or by an owned one, and is always kept when every holder of its ids is owned |
| HttpApi.VisibleManifests | internal/httpapi/server.go:534-548 | the filter keeps, in order and each once, only manifests ManifestVisible accepts, and keeps every manifest whose holders are all owned |

## Left out

- Routing, middleware, JSON encoding and status codes are not modelled. Errors are the `ApiError` values the handlers choose.
- The "token required" branches are not modelled. In token mode a caller is always `Some(principal)`, and a missing token stops the request before any decision.
- The invalid-payload branches for request bodies that fail to decode are not modelled. Handlers receive decoded fields.
- Token verification and the static-token provider are not modelled. The caller's principal is a parameter. The same goes for the server's main program and its configuration.
- The file encoding is not modelled. `StateFile` says only whether the file is missing, unreadable, undecodable or holds a state. The temporary file a failed flush may leave behind is not represented.
- The read/write mutex is not modelled. Each store method is atomic, and handlers run one at a time.
- UUIDs and the clock are parameters. One `now` serves a whole request: the source reads the clock separately for a session's AttachedAt, a snapshot's CreatedAt and PutVolume's stamp. One `ioOk` serves every flush of a request; the HttpApi lines below say what that hides in the checkpoint handler.
- Ids.GeneratedId: lower-casing is ASCII only. The eight characters taken from a UUID are hex digits.
- The mount path is the root, "/", and the volume id concatenated. `path.Join` cleans paths, which changes nothing for generated ids.
- Volumes in a listing, and manifests, come in the store's iteration order. In the source that order is random. The model fixes no order and states membership and multiplicity instead. The ghost `keys` results name the order chosen.
- QuotaBytes and the timestamps are unbounded integers, and no arithmetic is done on them. A zero time is `ZeroTime`. The handlers accept any `now`, including `ZeroTime`, which the system clock never returns; Store.CreationStampIsKept assumes a non-zero reading.
- Store.FileStore.FromFile: requires a missing or stored file. Store.NewFileStore handles the unreadable and undecodable cases before constructing.
- HttpApi.CollectLatest: one flush outcome serves the whole loop, while the source flushes once per auto-created snapshot and each flush succeeds or fails on its own. The model cannot show a store failure at a later auto-created snapshot after earlier ones were committed to the file.
- HttpApi.HandleCreateCheckpoint: one flush outcome serves every auto-created snapshot and the manifest, while the source flushes each separately. The model cannot show a store failure at a later auto-created snapshot after earlier ones were committed, nor a failed manifest flush after snapshots were created and committed. The persisted-state clauses hold only because one outcome decides every flush.
- HttpApi.HandleCreateCheckpoint: the default id list is characterised only when every volume is stored under its own id. Every mutation preserves that (Store.MutationsKeepKeys).
- HttpApi.HandleListCheckpoints: exact only when no snapshot id appears in two volumes' histories (Lifecycle.FilterIsExactForUniqueIds). Otherwise the store's scan order decides which holder is consulted, and the contract gives the two bounds.
- The "preparing" mount state is declared in the source but never used, so it is not modelled.
