/**
  * A client of the handlers: one volume is created, attached without a session id, detached,
  * and checkpointed without naming volumes. Everything asserted here follows from the
  * handlers' contracts alone.
  */
module Scenario {
  import opened Wrappers
  import opened Store
  import opened Ids
  import opened Lifecycle
  import opened HttpApi

  /** A sequence of two or more copies of the same id is not duplicate-free. */
  lemma RepeatedIdIsNotDistinct(s: seq<string>, x: string)
    ensures |s| > 1 && (forall i :: 0 <= i < |s| ==> s[i] == x) ==> !Distinct(s)
  {
    if |s| > 1 && forall i :: 0 <= i < |s| ==> s[i] == x {
      assert s[0] == s[1];
    }
  }

  /** With one volume owned by the caller, a checkpoint naming no volumes snapshots exactly that one. */
  method CheckpointOfOneVolume(st: FileStore, caller: Caller, id: string, snapUuid: string, chkUuid: string)
    requires IsUuid(snapUuid) && IsUuid(chkUuid)
    requires st.WellKeyed() && st.volumes.Keys == {id} && OwnerAllows(caller, st.volumes[id])
    requires SnapshotsOf(st.snaps, id) == []
    modifies st
  {
    var checkpoint, ids, manifest := HandleCreateCheckpoint(st, caller, CreateCheckpointRequest([], ""), _ => snapUuid, chkUuid, 104, true);
    assert id in ids;
    RepeatedIdIsNotDistinct(ids, id);
    assert ids == [id];
    assert checkpoint.Success? && |checkpoint.value.snapshotIds| == 1;
    assert |st.snaps[id]| == 1 && st.snaps[id][0].note == AutoSnapshotNote;
    assert FirstOccurrence(ids, 0);
    assert checkpoint.value.snapshotIds == [GeneratedId("snap-", snapUuid)];
  }

  /** A failed flush of the auto-created snapshot answers a store error, yet memory keeps the snapshot. */
  method FailedFlushKeepsSnapshot(st: FileStore, id: string, snapUuid: string, chkUuid: string)
    requires IsUuid(snapUuid) && IsUuid(chkUuid)
    requires id in st.volumes && SnapshotsOf(st.snaps, id) == []
    modifies st
  {
    var before := st.snaps;
    var checkpoint, ids, manifest := HandleCreateCheckpoint(st, None, CreateCheckpointRequest([id], ""), _ => snapUuid, chkUuid, 106, false);
    assert Admissible(None, st.volumes, ids[0]);
    assert checkpoint == Failure(StoreFailure);
    assert st.snaps == before[id := [Snapshot(GeneratedId("snap-", snapUuid), id, 106, AutoSnapshotNote)]];
    assert |SnapshotsOf(st.snaps, id)| == 1;
  }

  /** The owner attaches, a stranger is refused, the owner detaches, then checkpoints everything. */
  method AttachDetachCheckpoint(st: FileStore, id: string, sessUuid: string, snapUuid: string, chkUuid: string)
    requires IsUuid(sessUuid) && IsUuid(snapUuid) && IsUuid(chkUuid)
    requires st.WellKeyed() && st.volumes.Keys == {id} && st.snaps == map[]
    requires st.volumes[id].ownerPrincipal == "service:app1"
    modifies st
  {
    var caller: Caller := Some("service:app1");
    var attached := HandleAttachVolume(st, caller, id, AttachRequest("service:app1", "", "client-1"), sessUuid, 101, true);
    assert attached.Success? && attached.value.attachState == Attached;
    assert attached.value.attachSession.value.sessionId == GeneratedId("sess-", sessUuid);
    assert st.volumes.Keys == {id} && st.snaps == map[];

    var stranger := HandleAttachVolume(st, Some("service:app2"), id, AttachRequest("", "", "client-2"), sessUuid, 102, true);
    assert stranger == Failure(PrincipalMismatch);
    assert st.volumes.Keys == {id} && st.snaps == map[];

    var detached := HandleDetachVolume(st, caller, id, 103, true);
    assert detached.Success? && detached.value.attachState == Available && detached.value.attachSession.None?;
    assert st.volumes.Keys == {id} && st.snaps == map[] && st.volumes[id].ownerPrincipal == "service:app1";

    CheckpointOfOneVolume(st, caller, id, snapUuid, chkUuid);
  }

  /**
    * A checkpoint naming an unknown volume before a known one is refused as invalid, even though
    * every flush succeeds, and the known volume, listed after it, gets no snapshot.
    */
  method RefusedCheckpointStopsEarly(st: FileStore, good: string, bad: string, snapUuid: string, chkUuid: string)
    requires IsUuid(snapUuid) && IsUuid(chkUuid)
    requires good in st.volumes && bad !in st.volumes && st.snaps == map[]
    modifies st
  {
    var cpBefore := st.cp;
    var checkpoint, ids, manifest :=
      HandleCreateCheckpoint(st, None, CreateCheckpointRequest([bad, good], ""), _ => snapUuid, chkUuid, 105, true);
    assert ids == [bad, good] && !Admissible(None, st.volumes, bad);
    assert !FirstRejected(None, st.volumes, ids, 1);
    assert !Admissible(None, st.volumes, ids[0]);
    assert checkpoint.Failure?;
    assert checkpoint.error != StoreFailure;
    assert checkpoint.error == Rejection(None, st.volumes, bad) == InvalidVolume;
    assert good !in st.snaps;
    assert st.cp == cpBefore;
  }

  /** Create, attach, a rejected attach by another principal, detach, then checkpoint. */
  method WalkThrough(volUuid: string, sessUuid: string, snapUuid: string, chkUuid: string)
    requires IsUuid(volUuid) && IsUuid(sessUuid) && IsUuid(snapUuid) && IsUuid(chkUuid)
  {
    var st := new FileStore.FromFile(Missing);
    var caller: Caller := Some("service:app1");

    var created := HandleCreateVolume(st, caller, CreateVolumeRequest("service:app1", "", 21474836480, "", ""),
                                      volUuid, 100, true);
    assert created.Success?;
    var id := created.value.volumeId;
    assert id == GeneratedId("vol-", volUuid) && id[..4] == "vol-";
    assert created.value.mountHandle.hostPath == "/run/aionfs/mounts/" + id;
    assert created.value.attachState == Available && created.value.attachSession.None?;
    assert st.persisted == Stored(st.Current());
    assert st.volumes.Keys == {id} && st.snaps == map[] && st.WellKeyed();

    AttachDetachCheckpoint(st, id, sessUuid, snapUuid, chkUuid);
  }
}
