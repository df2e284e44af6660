/**
  * The decision rules of the lifecycle layer, apart from the store calls that follow them:
  * who may act on a volume, what a created volume looks like, how attach and detach move a
  * volume between `available` and `attached`, which volumes a checkpoint may name and which
  * manifests a caller may list.
  *
  * The caller is an `Option<string>`: `None` when the server runs without a token provider
  * (ownership checks are skipped), `Some(p)` when a token provider authenticated the request
  * as principal `p`.
  */
module Lifecycle {
  import opened Wrappers
  import opened Store

  const Available := "available"
  const Attached := "attached"
  const DefaultExportMode := "fs"
  const DefaultClass := "persistent"
  const MountRoot := "/run/aionfs/mounts"
  const AutoSnapshotNote := "auto-generated for checkpoint"

  type Caller = Option<string>

  /** The error codes the lifecycle layer answers with. */
  datatype ApiError =
    | NotFound
    | PrincipalMismatch
    | MissingOwner
    | MissingPrincipal
    | InvalidVolume
    | StoreFailure

  datatype CreateVolumeRequest = CreateVolumeRequest(
    ownerPrincipal: string,
    volumeClass: string,
    quotaBytes: int,
    policyProfile: string,
    exportMode: string)

  datatype AttachRequest = AttachRequest(principal: string, sessionId: string, consumerEndpoint: string)

  datatype CreateCheckpointRequest = CreateCheckpointRequest(volumeIds: seq<string>, note: string)

  /** How a failed store call is reported. */
  function FromStoreError(e: StoreError): ApiError {
    match e
    case VolumeNotFound => NotFound
    case IoError => StoreFailure
  }

  /** In token mode only the owner may see or change a volume; without a token provider anyone may. */
  predicate OwnerAllows(caller: Caller, v: Volume) {
    caller.None? || v.ownerPrincipal == caller.value
  }

  /** The export path of a volume (`path.Join` of the mount root and an id without separators). */
  function HostPath(volumeId: string): string {
    MountRoot + "/" + volumeId
  }

  function OrDefault(s: string, default: string): string {
    if s == "" then default else s
  }

  /** The mount-session invariant: a session exists exactly while the volume is attached. */
  ghost predicate SessionConsistent(v: Volume) {
    && (v.attachSession.Some? <==> v.attachState == Attached)
    && v.mountHandle.state == v.attachState
  }

  ghost predicate AllSessionsConsistent(volumes: map<string, Volume>) {
    forall id :: id in volumes ==> SessionConsistent(volumes[id])
  }

  // ---------------------------------------------------------------------------
  // Create
  // ---------------------------------------------------------------------------

  /** The record a create request describes, before the store stamps its times. */
  function NewVolume(caller: Caller, req: CreateVolumeRequest, volumeId: string): (r: Result<Volume, ApiError>)
    ensures r == Failure(MissingOwner) <==> req.ownerPrincipal == "" && caller.None?
    ensures r == Failure(PrincipalMismatch) <==>
              req.ownerPrincipal != "" && caller.Some? && req.ownerPrincipal != caller.value
    ensures r.Failure? ==> r.error == MissingOwner || r.error == PrincipalMismatch
    ensures r.Success? && caller.Some? ==> r.value.ownerPrincipal == caller.value
    ensures r.Success? && caller.None? ==> r.value.ownerPrincipal == req.ownerPrincipal != ""
    ensures r.Success? ==>
              && r.value.volumeId == volumeId
              && r.value.exportMode == OrDefault(req.exportMode, DefaultExportMode) != ""
              && r.value.volumeClass == OrDefault(req.volumeClass, DefaultClass) != ""
              && r.value.quotaBytes == req.quotaBytes
              && r.value.policyProfile == req.policyProfile
              && r.value.mountHandle == MountInfo(r.value.exportMode, HostPath(volumeId), Available)
              && r.value.attachState == Available
              && r.value.attachSession.None?
  {
    var owner :=
      if req.ownerPrincipal != "" then req.ownerPrincipal
      else if caller.Some? then caller.value
      else "";
    if req.ownerPrincipal == "" && caller.None? then Failure(MissingOwner)
    else if req.ownerPrincipal != "" && caller.Some? && req.ownerPrincipal != caller.value then Failure(PrincipalMismatch)
    else
      var mode := OrDefault(req.exportMode, DefaultExportMode);
      Success(Volume(
        volumeId, owner, OrDefault(req.volumeClass, DefaultClass), req.quotaBytes, req.policyProfile,
        mode, MountInfo(mode, HostPath(volumeId), Available), Available, None, ZeroTime, ZeroTime))
  }

  // ---------------------------------------------------------------------------
  // Attach and detach
  // ---------------------------------------------------------------------------

  /** The principal an attach request acts for: the body's, else the token's, else none. */
  function AttachPrincipal(caller: Caller, req: AttachRequest): Option<string> {
    if req.principal != "" then Some(req.principal) else caller
  }

  /** The attached record, or why attach is refused; any attach state is accepted. */
  function AttachDecision(caller: Caller, vol: Volume, req: AttachRequest, freshSessionId: string, now: Time)
    : (r: Result<Volume, ApiError>)
    ensures r == Failure(MissingPrincipal) <==> req.principal == "" && caller.None?
    ensures r == Failure(PrincipalMismatch) <==>
              AttachPrincipal(caller, req).Some? && AttachPrincipal(caller, req).value != vol.ownerPrincipal
    ensures r.Success? <==> AttachPrincipal(caller, req) == Some(vol.ownerPrincipal)
    ensures r.Success? ==>
              && r.value.attachState == Attached
              && r.value.mountHandle == vol.mountHandle.(state := Attached)
              && r.value.attachSession == Some(Session(
                   OrDefault(req.sessionId, freshSessionId), vol.ownerPrincipal, req.consumerEndpoint, now))
              && r.value.(attachState := vol.attachState, mountHandle := vol.mountHandle,
                          attachSession := vol.attachSession) == vol
  {
    if req.principal == "" && caller.None? then Failure(MissingPrincipal)
    else
      var principal := if req.principal != "" then req.principal else caller.value;
      if principal != vol.ownerPrincipal then Failure(PrincipalMismatch)
      else
        var session := Session(OrDefault(req.sessionId, freshSessionId), principal, req.consumerEndpoint, now);
        Success(vol.(attachState := Attached, mountHandle := vol.mountHandle.(state := Attached),
                     attachSession := Some(session)))
  }

  /** The detached record, or why detach is refused; any attach state is accepted. */
  function DetachDecision(caller: Caller, vol: Volume): (r: Result<Volume, ApiError>)
    ensures r.Failure? <==> !OwnerAllows(caller, vol)
    ensures r.Failure? ==> r.error == PrincipalMismatch
    ensures r.Success? ==>
              && r.value.attachState == Available
              && r.value.mountHandle == vol.mountHandle.(state := Available)
              && r.value.attachSession.None?
              && r.value.(attachState := vol.attachState, mountHandle := vol.mountHandle,
                          attachSession := vol.attachSession) == vol
  {
    if caller.Some? && vol.ownerPrincipal != caller.value then Failure(PrincipalMismatch)
    else Success(vol.(attachState := Available, mountHandle := vol.mountHandle.(state := Available),
                      attachSession := None))
  }

  /** Detaching twice is the same as detaching once. */
  lemma DetachIsIdempotent(caller: Caller, vol: Volume)
    requires DetachDecision(caller, vol).Success?
    ensures DetachDecision(caller, DetachDecision(caller, vol).value) == DetachDecision(caller, vol)
  {
  }

  /**
    * The attach check compares the principal named in the body with the owner, never the
    * token's principal: in token mode a caller that names the owner is accepted.
    */
  lemma AttachChecksBodyPrincipal(caller: Caller, vol: Volume, req: AttachRequest, freshSessionId: string, now: Time)
    requires caller.Some? && caller.value != vol.ownerPrincipal
    requires req.principal == vol.ownerPrincipal != ""
    ensures AttachDecision(caller, vol, req, freshSessionId, now).Success?
    ensures AttachDecision(caller, vol, req, freshSessionId, now).value.attachSession.value.principal == vol.ownerPrincipal
  {
  }

  /** One attach or detach request against a volume, with the inputs the handler takes from outside. */
  datatype MountOp =
    | AttachOp(caller: Caller, req: AttachRequest, freshSessionId: string, now: Time)
    | DetachOp(caller: Caller)

  /** The record after one request: the decided record, or the same record when the request is refused. */
  function Step(v: Volume, op: MountOp): Volume {
    var r := match op
      case AttachOp(caller, req, sid, now) => AttachDecision(caller, v, req, sid, now)
      case DetachOp(caller) => DetachDecision(caller, v);
    if r.Success? then r.value else v
  }

  function Run(v: Volume, ops: seq<MountOp>): Volume
    decreases |ops|
  {
    if ops == [] then v else Run(Step(v, ops[0]), ops[1..])
  }

  /** Every attach/detach sequence keeps the session invariant, the owner and the id. */
  lemma {:induction false} RunKeepsSessionInvariant(v: Volume, ops: seq<MountOp>)
    requires SessionConsistent(v)
    ensures SessionConsistent(Run(v, ops))
    ensures Run(v, ops).ownerPrincipal == v.ownerPrincipal && Run(v, ops).volumeId == v.volumeId
    decreases |ops|
  {
    if ops != [] {
      var v1 := Step(v, ops[0]);
      assert SessionConsistent(v1) && v1.ownerPrincipal == v.ownerPrincipal && v1.volumeId == v.volumeId;
      RunKeepsSessionInvariant(v1, ops[1..]);
    }
  }

  /** From creation on, any attach/detach sequence leaves a session present iff the volume is attached. */
  lemma SessionInvariantFromCreation(caller: Caller, req: CreateVolumeRequest, volumeId: string, ops: seq<MountOp>)
    requires NewVolume(caller, req, volumeId).Success?
    ensures SessionConsistent(Run(NewVolume(caller, req, volumeId).value, ops))
  {
    RunKeepsSessionInvariant(NewVolume(caller, req, volumeId).value, ops);
  }

  /** An upsert of a consistent record keeps every stored record consistent (stamping touches only times). */
  lemma PutKeepsSessionInvariant(s: State, v: Volume, now: Time)
    requires AllSessionsConsistent(s.volumes) && SessionConsistent(v)
    ensures AllSessionsConsistent(PutVolumeState(s, v, now).volumes)
  {
    assert SessionConsistent(Stamped(s.volumes, v, now));
  }

  // ---------------------------------------------------------------------------
  // Checkpoints
  // ---------------------------------------------------------------------------

  /** A checkpoint may name `vid`: the volume exists and the caller may act on it. */
  predicate Admissible(caller: Caller, volumes: map<string, Volume>, vid: string) {
    vid in volumes && OwnerAllows(caller, volumes[vid])
  }

  /** Why a checkpoint naming `vid` is refused. */
  function Rejection(caller: Caller, volumes: map<string, Volume>, vid: string): ApiError {
    if vid !in volumes then InvalidVolume else PrincipalMismatch
  }

  /** The ids of the volumes owned by `p`. */
  function OwnedIds(volumes: map<string, Volume>, p: string): set<string> {
    set k | k in volumes && volumes[k].ownerPrincipal == p :: volumes[k].volumeId
  }

  /** Every requested volume got exactly the auto-created snapshot it lacked, and nothing else changed. */
  ghost predicate AutoCreatedOnly(before: map<string, seq<Snapshot>>, after: map<string, seq<Snapshot>>,
                                  ids: seq<string>, now: Time) {
    && before.Keys <= after.Keys
    && (forall v :: v in before && |before[v]| > 0 ==> after[v] == before[v])
    && (forall v :: v in after ==>
          || (v in before && after[v] == before[v])
          || (&& v in ids && |SnapshotsOf(before, v)| == 0 && |after[v]| == 1
              && after[v][0].volumeId == v && after[v][0].note == AutoSnapshotNote && after[v][0].createdAt == now))
  }

  /** `ids[i]` is the first id in `ids` that a checkpoint may not name. */
  ghost predicate FirstRejected(caller: Caller, volumes: map<string, Volume>, ids: seq<string>, i: int) {
    && 0 <= i < |ids|
    && !Admissible(caller, volumes, ids[i])
    && forall j :: 0 <= j < i ==> Admissible(caller, volumes, ids[j])
  }

  /** Every volume named in `ids` already has a snapshot in `snaps`. */
  ghost predicate AllHaveHistory(snaps: map<string, seq<Snapshot>>, ids: seq<string>) {
    forall i :: 0 <= i < |ids| ==> |SnapshotsOf(snaps, ids[i])| > 0
  }

  /**
    * `ids[i]` is the first id in `ids` whose volume has no snapshot in `snaps`, and every id up to
    * and including it may be named: there the checkpoint loop first creates a snapshot.
    */
  ghost predicate FirstCreation(caller: Caller, volumes: map<string, Volume>, snaps: map<string, seq<Snapshot>>,
                                ids: seq<string>, i: int) {
    && 0 <= i < |ids|
    && |SnapshotsOf(snaps, ids[i])| == 0
    && (forall j :: 0 <= j <= i ==> Admissible(caller, volumes, ids[j]))
    && (forall j :: 0 <= j < i ==> |SnapshotsOf(snaps, ids[j])| > 0)
  }

  /** `m` is the manifest of checkpoint `chkId` over `ids`: the latest snapshot of each, in order. */
  ghost predicate ManifestFor(m: Checkpoint, snaps: map<string, seq<Snapshot>>, ids: seq<string>,
                              chkId: string, note: string, now: Time) {
    && m.manifestId == chkId && m.note == note && m.createdAt == now
    && |m.snapshotIds| == |ids|
    && forall i :: 0 <= i < |ids| ==> |SnapshotsOf(snaps, ids[i])| > 0 && m.snapshotIds[i] == LatestId(snaps, ids[i])
  }

  /** The id of the latest snapshot of a volume that has one. */
  function LatestId(snaps: map<string, seq<Snapshot>>, vid: string): string
    requires |SnapshotsOf(snaps, vid)| > 0
  {
    SnapshotsOf(snaps, vid)[|SnapshotsOf(snaps, vid)| - 1].snapshotId
  }

  /** Every volume whose history holds one of the manifest's snapshots is owned. */
  ghost predicate AllHoldersOwned(snaps: map<string, seq<Snapshot>>, owned: set<string>, c: Checkpoint) {
    forall j, v :: 0 <= j < |c.snapshotIds| && v in snaps && Holds(snaps[v], c.snapshotIds[j]) ==> v in owned
  }

  /** Each of the manifest's snapshots is held by no volume, or by some owned volume. */
  ghost predicate EachOrphanOrOwned(snaps: map<string, seq<Snapshot>>, owned: set<string>, c: Checkpoint) {
    forall j :: 0 <= j < |c.snapshotIds| ==>
      (forall v :: v in snaps ==> !Holds(snaps[v], c.snapshotIds[j])) ||
      (exists v :: v in snaps && Holds(snaps[v], c.snapshotIds[j]) && v in owned)
  }

  /** No snapshot id occurs in the histories of two different volumes. */
  ghost predicate UniqueSnapshotIds(snaps: map<string, seq<Snapshot>>) {
    forall v, w, sid :: v in snaps && w in snaps && Holds(snaps[v], sid) && Holds(snaps[w], sid) ==> v == w
  }

  /**
    * Deleting a volume keeps its history, so a manifest naming one of its snapshots is hidden from
    * token-mode listings, the deleting owner's included: the snapshot still resolves to the
    * deleted id, which no longer belongs to anyone.
    */
  lemma DeletedVolumeHidesManifest(volumes: map<string, Volume>, snaps: map<string, seq<Snapshot>>, p: string,
                                   c: Checkpoint, j: int, vid: string)
    requires KeyedById(volumes) && UniqueSnapshotIds(snaps)
    requires vid in snaps && vid !in volumes
    requires 0 <= j < |c.snapshotIds| && Holds(snaps[vid], c.snapshotIds[j])
    ensures !EachOrphanOrOwned(snaps, OwnedIds(volumes, p), c)
  {
  }

  /** With unique snapshot ids the two readings of the listing filter coincide. */
  lemma FilterIsExactForUniqueIds(snaps: map<string, seq<Snapshot>>, owned: set<string>, c: Checkpoint)
    requires UniqueSnapshotIds(snaps)
    ensures AllHoldersOwned(snaps, owned, c) <==> EachOrphanOrOwned(snaps, owned, c)
  {
    if EachOrphanOrOwned(snaps, owned, c) {
      forall j, v | 0 <= j < |c.snapshotIds| && v in snaps && Holds(snaps[v], c.snapshotIds[j])
        ensures v in owned
      {
        var w :| w in snaps && Holds(snaps[w], c.snapshotIds[j]) && w in owned;
        assert v == w;
      }
    }
    if AllHoldersOwned(snaps, owned, c) {
      forall j | 0 <= j < |c.snapshotIds|
        ensures (forall v :: v in snaps ==> !Holds(snaps[v], c.snapshotIds[j])) ||
                (exists v :: v in snaps && Holds(snaps[v], c.snapshotIds[j]) && v in owned)
      {
        if v :| v in snaps && Holds(snaps[v], c.snapshotIds[j]) {
          assert v in owned;
        }
      }
    }
  }
}
