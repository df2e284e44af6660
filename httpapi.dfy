/**
  * The request handlers of the lifecycle layer, each reduced to its decisions and store calls.
  * Transport (routing, JSON, status codes) is not modelled: a handler receives the caller, the
  * decoded request fields, the store, the fresh UUIDs and the time it would generate, and the
  * outcome of the store's flushes (`ioOk`); it answers a record or an `ApiError`.
  */
module HttpApi {
  import opened Wrappers
  import opened Store
  import opened Ids
  import opened Lifecycle

  /** After an upsert of `v`: the store's effect, its answer mapped to the API, and the file written through. */
  ghost predicate PutCommitted(before: State, fileBefore: StateFile, after: State, fileAfter: StateFile,
                               v: Volume, now: Time, ioOk: bool, r: Result<Volume, ApiError>) {
    && after == PutVolumeState(before, v, now)
    && r == (if ioOk then Success(Stamped(before.volumes, v, now)) else Failure(StoreFailure))
    && fileAfter == (if ioOk then Stored(after) else fileBefore)
  }

  method HandleCreateVolume(st: FileStore, caller: Caller, req: CreateVolumeRequest, uuid: string, now: Time, ioOk: bool)
    returns (r: Result<Volume, ApiError>)
    requires IsUuid(uuid)
    modifies st
    ensures var plan := NewVolume(caller, req, GeneratedId("vol-", uuid));
            && (plan.Failure? ==> r == Failure(plan.error) && unchanged(st))
            && (plan.Success? ==>
                  PutCommitted(old(st.Current()), old(st.persisted), st.Current(), st.persisted, plan.value, now, ioOk, r))
    ensures old(AllSessionsConsistent(st.volumes)) ==> AllSessionsConsistent(st.volumes)
    ensures old(st.WellKeyed()) ==> st.WellKeyed()
  {
    var volumeId := GeneratedId("vol-", uuid);
    var plan := NewVolume(caller, req, volumeId);
    if plan.Failure? {
      return Failure(plan.error);
    }
    ghost var before := st.Current();
    var put := st.PutVolume(plan.value, now, ioOk);
    if put.Failure? {
      r := Failure(StoreFailure);
    } else {
      r := Success(put.value);
    }
    if AllSessionsConsistent(before.volumes) {
      PutKeepsSessionInvariant(before, plan.value, now);
    }
  }

  method HandleListVolumes(st: FileStore, caller: Caller) returns (out: seq<Volume>, ghost keys: seq<string>)
    ensures forall i :: 0 <= i < |out| ==> out[i] in st.volumes.Values && OwnerAllows(caller, out[i])
    ensures forall k :: k in st.volumes && OwnerAllows(caller, st.volumes[k]) ==> st.volumes[k] in out
    ensures Distinct(keys) && |out| == |keys|
    ensures forall i :: 0 <= i < |keys| ==>
              keys[i] in st.volumes && out[i] == st.volumes[keys[i]] && OwnerAllows(caller, out[i])
    ensures forall k :: k in st.volumes && OwnerAllows(caller, st.volumes[k]) ==> k in keys
  {
    if caller.Some? {
      out, keys := st.ListVolumesByOwner(caller.value);
    } else {
      out, keys := st.ListVolumes();
    }
  }

  method HandleGetVolume(st: FileStore, caller: Caller, id: string) returns (r: Result<Volume, ApiError>)
    ensures id !in st.volumes ==> r == Failure(NotFound)
    ensures id in st.volumes && !OwnerAllows(caller, st.volumes[id]) ==> r == Failure(PrincipalMismatch)
    ensures id in st.volumes && OwnerAllows(caller, st.volumes[id]) ==> r == Success(st.volumes[id])
  {
    var found := st.GetVolume(id);
    if found.Failure? {
      return Failure(FromStoreError(found.error));
    }
    var v := found.value;
    if caller.Some? && v.ownerPrincipal != caller.value {
      return Failure(PrincipalMismatch);
    }
    return Success(v);
  }

  method HandleAttachVolume(st: FileStore, caller: Caller, id: string, req: AttachRequest,
                            uuid: string, now: Time, ioOk: bool)
    returns (r: Result<Volume, ApiError>)
    requires IsUuid(uuid)
    modifies st
    ensures id !in old(st.volumes) ==> r == Failure(NotFound) && unchanged(st)
    ensures id in old(st.volumes) ==>
              var plan := AttachDecision(caller, old(st.volumes[id]), req, GeneratedId("sess-", uuid), now);
              && (plan.Failure? ==> r == Failure(plan.error) && unchanged(st))
              && (plan.Success? ==>
                    PutCommitted(old(st.Current()), old(st.persisted), st.Current(), st.persisted, plan.value, now, ioOk, r))
    ensures old(AllSessionsConsistent(st.volumes)) ==> AllSessionsConsistent(st.volumes)
    ensures old(st.WellKeyed()) ==> st.WellKeyed()
  {
    var found := st.GetVolume(id);
    if found.Failure? {
      return Failure(FromStoreError(found.error));
    }
    var plan := AttachDecision(caller, found.value, req, GeneratedId("sess-", uuid), now);
    if plan.Failure? {
      return Failure(plan.error);
    }
    ghost var before := st.Current();
    var put := st.PutVolume(plan.value, now, ioOk);
    if put.Failure? {
      r := Failure(StoreFailure);
    } else {
      r := Success(put.value);
    }
    if AllSessionsConsistent(before.volumes) {
      PutKeepsSessionInvariant(before, plan.value, now);
    }
  }

  /** Detach ignores the body's session id: it clears whatever session the volume has. */
  method HandleDetachVolume(st: FileStore, caller: Caller, id: string, now: Time, ioOk: bool)
    returns (r: Result<Volume, ApiError>)
    modifies st
    ensures id !in old(st.volumes) ==> r == Failure(NotFound) && unchanged(st)
    ensures id in old(st.volumes) ==>
              var plan := DetachDecision(caller, old(st.volumes[id]));
              && (plan.Failure? ==> r == Failure(plan.error) && unchanged(st))
              && (plan.Success? ==>
                    PutCommitted(old(st.Current()), old(st.persisted), st.Current(), st.persisted, plan.value, now, ioOk, r))
    ensures old(AllSessionsConsistent(st.volumes)) ==> AllSessionsConsistent(st.volumes)
    ensures old(st.WellKeyed()) ==> st.WellKeyed()
  {
    var found := st.GetVolume(id);
    if found.Failure? {
      return Failure(FromStoreError(found.error));
    }
    var plan := DetachDecision(caller, found.value);
    if plan.Failure? {
      return Failure(plan.error);
    }
    ghost var before := st.Current();
    var put := st.PutVolume(plan.value, now, ioOk);
    if put.Failure? {
      r := Failure(StoreFailure);
    } else {
      r := Success(put.value);
    }
    if AllSessionsConsistent(before.volumes) {
      PutKeepsSessionInvariant(before, plan.value, now);
    }
  }

  /** Token mode looks the volume up and checks its owner first; otherwise the delete goes straight to the store. */
  method HandleDeleteVolume(st: FileStore, caller: Caller, id: string, ioOk: bool) returns (r: Option<ApiError>)
    modifies st
    ensures id !in old(st.volumes) ==> r == Some(NotFound) && unchanged(st)
    ensures id in old(st.volumes) && !OwnerAllows(caller, old(st.volumes[id])) ==>
              r == Some(PrincipalMismatch) && unchanged(st)
    ensures id in old(st.volumes) && OwnerAllows(caller, old(st.volumes[id])) ==>
              && st.Current() == RemoveVolume(old(st.Current()), id)
              && r == (if ioOk then None else Some(StoreFailure))
              && st.persisted == (if ioOk then Stored(st.Current()) else old(st.persisted))
    ensures old(AllSessionsConsistent(st.volumes)) ==> AllSessionsConsistent(st.volumes)
    ensures old(st.WellKeyed()) ==> st.WellKeyed()
  {
    if caller.Some? {
      var found := st.GetVolume(id);
      if found.Failure? {
        return Some(FromStoreError(found.error));
      }
      if found.value.ownerPrincipal != caller.value {
        return Some(PrincipalMismatch);
      }
    }
    var err := st.DeleteVolume(id, ioOk);
    if err.Some? {
      return Some(FromStoreError(err.value));
    }
    return None;
  }

  method HandleCreateSnapshot(st: FileStore, caller: Caller, volumeId: string, note: string,
                              uuid: string, now: Time, ioOk: bool)
    returns (r: Result<Snapshot, ApiError>)
    requires IsUuid(uuid)
    modifies st
    ensures volumeId !in old(st.volumes) ==> r == Failure(NotFound) && unchanged(st)
    ensures volumeId in old(st.volumes) && !OwnerAllows(caller, old(st.volumes[volumeId])) ==>
              r == Failure(PrincipalMismatch) && unchanged(st)
    ensures volumeId in old(st.volumes) && OwnerAllows(caller, old(st.volumes[volumeId])) ==>
              var snap := Snapshot(GeneratedId("snap-", uuid), volumeId, now, note);
              && st.Current() == AppendSnapshot(old(st.Current()), volumeId, snap)
              && r == (if ioOk then Success(snap) else Failure(StoreFailure))
              && st.persisted == (if ioOk then Stored(st.Current()) else old(st.persisted))
  {
    var found := st.GetVolume(volumeId);
    if found.Failure? {
      return Failure(FromStoreError(found.error));
    }
    if caller.Some? && found.value.ownerPrincipal != caller.value {
      return Failure(PrincipalMismatch);
    }
    var snap := Snapshot(GeneratedId("snap-", uuid), volumeId, now, note);
    var added := st.AddSnapshot(volumeId, snap, ioOk);
    if added.Failure? {
      return Failure(FromStoreError(added.error));
    }
    return Success(added.value);
  }

  method HandleListSnapshots(st: FileStore, caller: Caller, volumeId: string) returns (r: Result<seq<Snapshot>, ApiError>)
    ensures volumeId !in st.volumes ==> r == Failure(NotFound)
    ensures volumeId in st.volumes && !OwnerAllows(caller, st.volumes[volumeId]) ==> r == Failure(PrincipalMismatch)
    ensures volumeId in st.volumes && OwnerAllows(caller, st.volumes[volumeId]) ==>
              r == Success(SnapshotsOf(st.snaps, volumeId))
  {
    var found := st.GetVolume(volumeId);
    if found.Failure? {
      return Failure(FromStoreError(found.error));
    }
    if caller.Some? && found.value.ownerPrincipal != caller.value {
      return Failure(PrincipalMismatch);
    }
    var list := st.ListSnapshots(volumeId);
    return Success(list);
  }

  /**
    * The volumes a checkpoint request without ids covers: those of the caller in token mode,
    * all of them otherwise, in the store's iteration order.
    */
  method DefaultVolumeIds(st: FileStore, caller: Caller) returns (ids: seq<string>, ghost keys: seq<string>)
    ensures Distinct(keys) && |ids| == |keys|
    ensures forall i :: 0 <= i < |keys| ==>
              keys[i] in st.volumes && ids[i] == st.volumes[keys[i]].volumeId && OwnerAllows(caller, st.volumes[keys[i]])
    ensures forall k :: k in st.volumes && OwnerAllows(caller, st.volumes[k]) ==> k in keys
    ensures st.WellKeyed() ==>
              && Distinct(ids)
              && (forall i :: 0 <= i < |ids| ==> ids[i] in st.volumes && OwnerAllows(caller, st.volumes[ids[i]]))
              && (forall k :: k in st.volumes && OwnerAllows(caller, st.volumes[k]) ==> k in ids)
    ensures st.WellKeyed() ==> ids == keys
  {
    var vols: seq<Volume>;
    if caller.Some? {
      vols, keys := st.ListVolumesByOwner(caller.value);
    } else {
      vols, keys := st.ListVolumes();
    }
    ids := VolumeIdsOf(vols);
  }

  /** The ids of `vols`, in order. */
  method VolumeIdsOf(vols: seq<Volume>) returns (ids: seq<string>)
    ensures |ids| == |vols|
    ensures forall j :: 0 <= j < |vols| ==> ids[j] == vols[j].volumeId
  {
    ids := [];
    for i := 0 to |vols|
      invariant |ids| == i
      invariant forall j :: 0 <= j < i ==> ids[j] == vols[j].volumeId
    {
      ids := ids + [vols[i].volumeId];
    }
  }

  /**
    * One step of the checkpoint loop: check that `vid` may be named, then answer the id of its
    * latest snapshot, creating that snapshot first when the volume has none.
    */
  method ResolveLatest(st: FileStore, caller: Caller, vid: string, snapUuid: string, now: Time, ioOk: bool)
    returns (r: Result<string, ApiError>)
    requires IsUuid(snapUuid)
    modifies st
    ensures st.volumes == old(st.volumes) && st.cp == old(st.cp)
    ensures !Admissible(caller, st.volumes, vid) ==>
              r == Failure(Rejection(caller, st.volumes, vid)) && unchanged(st)
    ensures Admissible(caller, st.volumes, vid) && |SnapshotsOf(old(st.snaps), vid)| > 0 ==>
              r == Success(LatestId(old(st.snaps), vid)) && unchanged(st)
    ensures Admissible(caller, st.volumes, vid) && |SnapshotsOf(old(st.snaps), vid)| == 0 ==>
              var snap := Snapshot(GeneratedId("snap-", snapUuid), vid, now, AutoSnapshotNote);
              && st.snaps == old(st.snaps)[vid := [snap]]
              && r == (if ioOk then Success(snap.snapshotId) else Failure(StoreFailure))
              && st.persisted == (if ioOk then Stored(st.Current()) else old(st.persisted))
    ensures r.Success? ==> Admissible(caller, st.volumes, vid)
    ensures r == Failure(StoreFailure) ==>
              !ioOk && Admissible(caller, st.volumes, vid) && |SnapshotsOf(old(st.snaps), vid)| == 0
    ensures r.Success? ==> |SnapshotsOf(st.snaps, vid)| > 0 && r.value == LatestId(st.snaps, vid)
  {
    var found := st.GetVolume(vid);
    if found.Failure? {
      return Failure(InvalidVolume);
    }
    if caller.Some? && found.value.ownerPrincipal != caller.value {
      return Failure(PrincipalMismatch);
    }
    var latest := st.LatestSnapshot(vid);
    if latest.Some? {
      return Success(latest.value.snapshotId);
    }
    var snap := Snapshot(GeneratedId("snap-", snapUuid), vid, now, AutoSnapshotNote);
    assert SnapshotsOf(st.snaps, vid) + [snap] == [snap];
    var created := st.AddSnapshot(vid, snap, ioOk);
    if created.Failure? {
      return Failure(StoreFailure);
    }
    return Success(created.value.snapshotId);
  }

  /** Giving a requested volume without history its first snapshot keeps the checkpoint's snapshot effect. */
  lemma AutoCreationStep(before: map<string, seq<Snapshot>>, mid: map<string, seq<Snapshot>>,
                         ids: seq<string>, i: int, snap: Snapshot, now: Time)
    requires AutoCreatedOnly(before, mid, ids, now)
    requires 0 <= i < |ids| && |SnapshotsOf(mid, ids[i])| == 0
    requires snap.volumeId == ids[i] && snap.note == AutoSnapshotNote && snap.createdAt == now
    ensures AutoCreatedOnly(before, mid[ids[i] := [snap]], ids, now)
  {
    var vid := ids[i];
    assert |SnapshotsOf(before, vid)| == 0 by {
      if vid in before {
        assert mid[vid] == before[vid];
      }
    }
  }

  /** Naming more volumes keeps the checkpoint's snapshot effect. */
  lemma AutoCreatedOnlyWidens(before: map<string, seq<Snapshot>>, after: map<string, seq<Snapshot>>,
                              small: seq<string>, big: seq<string>, now: Time)
    requires AutoCreatedOnly(before, after, small, now)
    requires forall v :: v in small ==> v in big
    ensures AutoCreatedOnly(before, after, big, now)
  {
  }

  /** `ids[k]` does not occur earlier in `ids`. */
  ghost predicate FirstOccurrence(ids: seq<string>, k: int) {
    0 <= k < |ids| && forall j :: 0 <= j < k ==> ids[j] != ids[k]
  }

  /**
    * Among the first `n` of `ids`, a volume that had no history in `before` and has one in `after`
    * got, as its first snapshot, the id generated from the UUID drawn at its first occurrence.
    */
  ghost predicate AutoIdsFrom(before: map<string, seq<Snapshot>>, after: map<string, seq<Snapshot>>,
                              ids: seq<string>, n: int, snapUuids: nat -> string) {
    forall k :: && 0 <= k < n && FirstOccurrence(ids, k) && IsUuid(snapUuids(k))
                && |SnapshotsOf(before, ids[k])| == 0 && |SnapshotsOf(after, ids[k])| > 0 ==>
      SnapshotsOf(after, ids[k])[0].snapshotId == GeneratedId("snap-", snapUuids(k))
  }

  /** Resolving `ids[i]` extends the account of auto-created snapshot ids by one position. */
  lemma AutoIdStep(before: map<string, seq<Snapshot>>, mid: map<string, seq<Snapshot>>,
                   after: map<string, seq<Snapshot>>, ids: seq<string>, i: int, snapUuids: nat -> string, now: Time)
    requires 0 <= i < |ids| && IsUuid(snapUuids(i))
    requires AutoIdsFrom(before, mid, ids, i, snapUuids) && AutoCreatedOnly(before, mid, ids[..i], now)
    requires forall j :: 0 <= j < i ==> |SnapshotsOf(mid, ids[j])| > 0
    requires after == mid ||
             (&& |SnapshotsOf(mid, ids[i])| == 0
              && after == mid[ids[i] := [Snapshot(GeneratedId("snap-", snapUuids(i)), ids[i], now, AutoSnapshotNote)]])
    ensures AutoIdsFrom(before, after, ids, i + 1, snapUuids)
  {
    forall k | && 0 <= k < i + 1 && FirstOccurrence(ids, k) && IsUuid(snapUuids(k))
               && |SnapshotsOf(before, ids[k])| == 0 && |SnapshotsOf(after, ids[k])| > 0
      ensures SnapshotsOf(after, ids[k])[0].snapshotId == GeneratedId("snap-", snapUuids(k))
    {
      if k == i {
        assert ids[k] !in ids[..i];
      } else if ids[k] == ids[i] {
        assert |SnapshotsOf(mid, ids[k])| > 0;
      }
    }
  }

  /** Positions past `n` add nothing once only the first `n` ids can have gained a snapshot. */
  lemma AutoIdsFromWidens(before: map<string, seq<Snapshot>>, after: map<string, seq<Snapshot>>,
                          ids: seq<string>, n: int, snapUuids: nat -> string, now: Time)
    requires 0 <= n <= |ids|
    requires AutoIdsFrom(before, after, ids, n, snapUuids) && AutoCreatedOnly(before, after, ids[..n], now)
    ensures AutoIdsFrom(before, after, ids, |ids|, snapUuids)
  {
    forall k | n <= k < |ids| && FirstOccurrence(ids, k) && |SnapshotsOf(before, ids[k])| == 0
      ensures |SnapshotsOf(after, ids[k])| == 0
    {
      assert ids[k] !in ids[..n];
    }
  }

  /** A volume that had no history and has one now holds exactly the snapshot created at its first occurrence. */
  lemma FreshEntryIsDrawnId(before: map<string, seq<Snapshot>>, after: map<string, seq<Snapshot>>,
                            ids: seq<string>, k: int, snapUuids: nat -> string, now: Time)
    requires AutoCreatedOnly(before, after, ids, now) && AutoIdsFrom(before, after, ids, |ids|, snapUuids)
    requires FirstOccurrence(ids, k) && IsUuid(snapUuids(k))
    requires |SnapshotsOf(before, ids[k])| == 0 && |SnapshotsOf(after, ids[k])| > 0
    ensures LatestId(after, ids[k]) == GeneratedId("snap-", snapUuids(k))
  {
    assert |after[ids[k]]| == 1;
  }

  /** The first `|snapshotIds|` of `ids` may be named, and `snapshotIds` holds their latest snapshot ids. */
  ghost predicate Resolved(caller: Caller, volumes: map<string, Volume>, snaps: map<string, seq<Snapshot>>,
                           ids: seq<string>, snapshotIds: seq<string>) {
    && |snapshotIds| <= |ids|
    && forall j :: 0 <= j < |snapshotIds| ==>
         && Admissible(caller, volumes, ids[j])
         && |SnapshotsOf(snaps, ids[j])| > 0 && snapshotIds[j] == LatestId(snaps, ids[j])
  }

  /**
    * Resolving the next id, possibly giving it its first snapshot, leaves the latest snapshots of the
    * ids already resolved alone and extends the resolved prefix by one.
    */
  lemma ResolvedStep(caller: Caller, volumes: map<string, Volume>, mid: map<string, seq<Snapshot>>,
                     after: map<string, seq<Snapshot>>, ids: seq<string>, snapshotIds: seq<string>, latest: string)
    requires Resolved(caller, volumes, mid, ids, snapshotIds) && |snapshotIds| < |ids|
    requires after == mid || (|SnapshotsOf(mid, ids[|snapshotIds|])| == 0 && exists snap :: after == mid[ids[|snapshotIds|] := [snap]])
    requires Admissible(caller, volumes, ids[|snapshotIds|])
    requires |SnapshotsOf(after, ids[|snapshotIds|])| > 0 && latest == LatestId(after, ids[|snapshotIds|])
    ensures Resolved(caller, volumes, after, ids, snapshotIds + [latest])
  {
    var i := |snapshotIds|;
    forall j | 0 <= j < i
      ensures |SnapshotsOf(after, ids[j])| > 0 && snapshotIds[j] == LatestId(after, ids[j])
    {
      assert ids[j] != ids[i] || after == mid;
      assert SnapshotsOf(after, ids[j]) == SnapshotsOf(mid, ids[j]);
    }
  }

  /**
    * One pass of the checkpoint loop, given what resolving `ids[i]` did to the histories (`mid`
    * before, `after` after): a success extends the collected prefix by one id; a refusal or a failed
    * flush ends the loop, with only the ids up to the stop point touched.
    */
  lemma CollectStep(caller: Caller, volumes: map<string, Volume>, before: map<string, seq<Snapshot>>,
                    mid: map<string, seq<Snapshot>>, after: map<string, seq<Snapshot>>, ids: seq<string>, i: int,
                    snapshotIds: seq<string>, latest: Result<string, ApiError>, snapUuids: nat -> string,
                    now: Time, ioOk: bool)
    requires 0 <= i < |ids| && |snapshotIds| == i && IsUuid(snapUuids(i))
    requires Resolved(caller, volumes, mid, ids, snapshotIds)
    requires AutoCreatedOnly(before, mid, ids[..i], now) && AutoIdsFrom(before, mid, ids, i, snapUuids)
    requires !ioOk ==> mid == before
    requires !Admissible(caller, volumes, ids[i]) ==> latest == Failure(Rejection(caller, volumes, ids[i])) && after == mid
    requires Admissible(caller, volumes, ids[i]) && |SnapshotsOf(mid, ids[i])| > 0 ==>
               latest == Success(LatestId(mid, ids[i])) && after == mid
    requires Admissible(caller, volumes, ids[i]) && |SnapshotsOf(mid, ids[i])| == 0 ==>
               && after == mid[ids[i] := [Snapshot(GeneratedId("snap-", snapUuids(i)), ids[i], now, AutoSnapshotNote)]]
               && latest == (if ioOk then Success(GeneratedId("snap-", snapUuids(i))) else Failure(StoreFailure))
    ensures latest.Success? ==>
              && Resolved(caller, volumes, after, ids, snapshotIds + [latest.value])
              && AutoCreatedOnly(before, after, ids[..i + 1], now) && AutoIdsFrom(before, after, ids, i + 1, snapUuids)
    ensures latest.Failure? ==> AutoCreatedOnly(before, after, ids, now) && AutoIdsFrom(before, after, ids, |ids|, snapUuids)
    ensures latest == Failure(StoreFailure) ==>
              && !ioOk && FirstCreation(caller, volumes, before, ids, i)
              && AutoCreatedOnly(before, after, ids[..i + 1], now)
              && after == before[ids[i] := [Snapshot(GeneratedId("snap-", snapUuids(i)), ids[i], now, AutoSnapshotNote)]]
    ensures latest.Failure? && latest.error != StoreFailure ==>
              && FirstRejected(caller, volumes, ids, i) && latest.error == Rejection(caller, volumes, ids[i])
              && (forall j :: 0 <= j < i ==> |SnapshotsOf(after, ids[j])| > 0)
              && AutoCreatedOnly(before, after, ids[..i], now)
  {
    AutoIdStep(before, mid, after, ids, i, snapUuids, now);
    AutoCreatedOnlyWidens(before, mid, ids[..i], ids[..i + 1], now);
    if |SnapshotsOf(mid, ids[i])| == 0 && after != mid {
      AutoCreationStep(before, mid, ids[..i + 1], i, after[ids[i]][0], now);
    }
    if latest.Failure? {
      AutoCreatedOnlyWidens(before, after, ids[..i + 1], ids, now);
      AutoIdsFromWidens(before, after, ids, i + 1, snapUuids, now);
    } else {
      ResolvedStep(caller, volumes, mid, after, ids, snapshotIds, latest.value);
    }
  }

  /**
    * The loop of the checkpoint handler: the latest snapshot id of each of `ids`, in order,
    * stopping at the first id that may not be named or at a failed flush.
    */
  method CollectLatest(st: FileStore, caller: Caller, ids: seq<string>, snapUuids: nat -> string, now: Time, ioOk: bool)
    returns (r: Result<seq<string>, ApiError>)
    requires forall i: nat :: IsUuid(snapUuids(i))
    modifies st
    ensures st.volumes == old(st.volumes) && st.cp == old(st.cp)
    ensures AutoCreatedOnly(old(st.snaps), st.snaps, ids, now)
    ensures r.Success? ==> |r.value| == |ids| && Resolved(caller, st.volumes, st.snaps, ids, r.value)
    ensures ioOk && (forall i :: 0 <= i < |ids| ==> Admissible(caller, st.volumes, ids[i])) ==> r.Success?
    ensures r == Failure(StoreFailure) ==>
              && !ioOk
              && exists i :: && FirstCreation(caller, st.volumes, old(st.snaps), ids, i)
                            && AutoCreatedOnly(old(st.snaps), st.snaps, ids[..i + 1], now)
                            && IsUuid(snapUuids(i))
                            && st.snaps == old(st.snaps)[ids[i] := [Snapshot(GeneratedId("snap-", snapUuids(i)), ids[i], now, AutoSnapshotNote)]]
    ensures r.Failure? && r.error != StoreFailure ==>
              exists i :: && FirstRejected(caller, st.volumes, ids, i)
                          && r.error == Rejection(caller, st.volumes, ids[i])
                          && (forall j :: 0 <= j < i ==> |SnapshotsOf(st.snaps, ids[j])| > 0)
                          && AutoCreatedOnly(old(st.snaps), st.snaps, ids[..i], now)
    ensures AutoIdsFrom(old(st.snaps), st.snaps, ids, |ids|, snapUuids)
    ensures r.Success? && !ioOk ==> st.snaps == old(st.snaps)
    ensures !ioOk ==> st.persisted == old(st.persisted)
    ensures ioOk ==> (st.snaps == old(st.snaps) && st.persisted == old(st.persisted)) || st.persisted == Stored(st.Current())
  {
    var snapshotIds: seq<string> := [];
    ghost var volumes, snaps0, cp0, persisted0 := st.volumes, st.snaps, st.cp, st.persisted;
    var i := 0;
    while i < |ids|
      invariant 0 <= i <= |ids| && |snapshotIds| == i
      invariant st.volumes == volumes && st.cp == cp0
      invariant Resolved(caller, volumes, st.snaps, ids, snapshotIds)
      invariant AutoCreatedOnly(snaps0, st.snaps, ids[..i], now)
      invariant AutoIdsFrom(snaps0, st.snaps, ids, i, snapUuids)
      invariant !ioOk ==> st.snaps == snaps0 && st.persisted == persisted0
      invariant (st.snaps == snaps0 && st.persisted == persisted0) || st.persisted == Stored(st.Current())
    {
      ghost var mid := st.snaps;
      var latest := ResolveLatest(st, caller, ids[i], snapUuids(i), now, ioOk);
      CollectStep(caller, volumes, snaps0, mid, st.snaps, ids, i, snapshotIds, latest, snapUuids, now, ioOk);
      if latest.Failure? {
        return Failure(latest.error);
      }
      snapshotIds := snapshotIds + [latest.value];
      i := i + 1;
    }
    assert ids[..i] == ids;
    return Success(snapshotIds);
  }

  /**
    * Builds a manifest naming, for each requested volume in request order, its latest snapshot,
    * creating one snapshot first for a volume that has none. An inadmissible id stops the request
    * without a manifest; snapshots created before it stay.
    */
  method HandleCreateCheckpoint(st: FileStore, caller: Caller, req: CreateCheckpointRequest,
                                snapUuids: nat -> string, chkUuid: string, now: Time, ioOk: bool)
    returns (r: Result<Checkpoint, ApiError>, ghost volumeIds: seq<string>, ghost manifest: Checkpoint)
    requires IsUuid(chkUuid)
    requires forall i: nat :: IsUuid(snapUuids(i))
    modifies st
    ensures |req.volumeIds| > 0 ==> volumeIds == req.volumeIds
    ensures |req.volumeIds| == 0 && old(st.WellKeyed()) ==>
              && Distinct(volumeIds)
              && (forall i :: 0 <= i < |volumeIds| ==> Admissible(caller, old(st.volumes), volumeIds[i]))
              && (forall k :: k in old(st.volumes) && OwnerAllows(caller, old(st.volumes[k])) ==> k in volumeIds)
    ensures st.volumes == old(st.volumes)
    ensures AutoCreatedOnly(old(st.snaps), st.snaps, volumeIds, now)
    ensures r.Success? <==> ioOk && forall i :: 0 <= i < |volumeIds| ==> Admissible(caller, st.volumes, volumeIds[i])
    // A refusal: the first id that may not be named decides it; only earlier volumes gained a snapshot.
    ensures r.Failure? && r.error != StoreFailure ==>
              && st.cp == old(st.cp)
              && exists i :: && FirstRejected(caller, st.volumes, volumeIds, i)
                            && r.error == Rejection(caller, st.volumes, volumeIds[i])
                            && (forall j :: 0 <= j < i ==> |SnapshotsOf(st.snaps, volumeIds[j])| > 0)
                            && AutoCreatedOnly(old(st.snaps), st.snaps, volumeIds[..i], now)
    // A store failure needs a failed flush: of the first auto-created snapshot, or of the manifest itself.
    ensures r == Failure(StoreFailure) ==> !ioOk
    ensures r == Failure(StoreFailure) ==>
              || (exists i :: && FirstCreation(caller, st.volumes, old(st.snaps), volumeIds, i)
                              && AutoCreatedOnly(old(st.snaps), st.snaps, volumeIds[..i + 1], now)
                              && IsUuid(snapUuids(i))
                              && st.snaps == old(st.snaps)[volumeIds[i] := [Snapshot(GeneratedId("snap-", snapUuids(i)), volumeIds[i], now, AutoSnapshotNote)]]
                              && st.cp == old(st.cp))
              || (&& (forall i :: 0 <= i < |volumeIds| ==> Admissible(caller, st.volumes, volumeIds[i]))
                  && AllHaveHistory(old(st.snaps), volumeIds) && st.snaps == old(st.snaps)
                  && st.cp == old(st.cp)[manifest.manifestId := manifest])
    ensures r.Success? || (r == Failure(StoreFailure) && AllHaveHistory(old(st.snaps), volumeIds)) ==>
              ManifestFor(manifest, st.snaps, volumeIds, GeneratedId("chk-", chkUuid), req.note, now)
    ensures r.Success? ==> r.value == manifest && st.cp == old(st.cp)[manifest.manifestId := manifest]
    // An entry for a volume that had no history names the snapshot created at its first occurrence.
    ensures AutoIdsFrom(old(st.snaps), st.snaps, volumeIds, |volumeIds|, snapUuids)
    ensures r.Success? ==>
              forall k :: FirstOccurrence(volumeIds, k) && |SnapshotsOf(old(st.snaps), volumeIds[k])| == 0 ==>
                r.value.snapshotIds[k] == GeneratedId("snap-", snapUuids(k))
    ensures !ioOk ==> st.persisted == old(st.persisted)
    ensures ioOk ==> st.persisted == Stored(st.Current()) || (st.Current() == old(st.Current()) && st.persisted == old(st.persisted))
    ensures r.Success? ==> st.persisted == Stored(st.Current())
  {
    var ids := req.volumeIds;
    if |ids| == 0 {
      ghost var keys;
      ids, keys := DefaultVolumeIds(st, caller);
    }
    volumeIds := ids;
    var collected := CollectLatest(st, caller, ids, snapUuids, now, ioOk);
    if collected.Failure? {
      manifest := Checkpoint(GeneratedId("chk-", chkUuid), [], now, req.note);
      return Failure(collected.error), volumeIds, manifest;
    }
    forall k | FirstOccurrence(ids, k) && |SnapshotsOf(old(st.snaps), ids[k])| == 0
      ensures collected.value[k] == GeneratedId("snap-", snapUuids(k))
    {
      FreshEntryIsDrawnId(old(st.snaps), st.snaps, ids, k, snapUuids, now);
    }
    var built := Checkpoint(GeneratedId("chk-", chkUuid), collected.value, now, req.note);
    manifest := built;
    var put := st.PutCheckpoint(built, ioOk);
    if put.Failure? {
      return Failure(StoreFailure), volumeIds, manifest;
    }
    return Success(put.value), volumeIds, manifest;
  }

  /**
    * Lists manifests. In token mode a manifest is kept unless one of its snapshot ids resolves to
    * a volume the caller does not own; ids that resolve to no volume do not exclude it. Kept
    * manifests are returned whole.
    */
  method HandleListCheckpoints(st: FileStore, caller: Caller) returns (out: seq<Checkpoint>, ghost keys: seq<string>)
    ensures Distinct(keys) && |out| == |keys|
    ensures forall i :: 0 <= i < |keys| ==> keys[i] in st.cp && out[i] == st.cp[keys[i]]
    ensures caller.None? ==> forall k :: k in st.cp ==> k in keys
    ensures caller.Some? ==>
              forall k :: k in st.cp && AllHoldersOwned(st.snaps, OwnedIds(st.volumes, caller.value), st.cp[k]) ==> k in keys
    ensures caller.Some? ==>
              forall i :: 0 <= i < |out| ==> EachOrphanOrOwned(st.snaps, OwnedIds(st.volumes, caller.value), out[i])
  {
    var manifests, manifestKeys := st.ListCheckpoints();
    if caller.None? {
      return manifests, manifestKeys;
    }
    var principal := caller.value;
    var owned := OwnedVolumeIds(st, principal);

    out, keys := VisibleManifests(st, owned, manifests, manifestKeys);
  }

  /** The filter loop of the listing: keeps, in order, the manifests `ManifestVisible` accepts. */
  method VisibleManifests(st: FileStore, owned: set<string>, manifests: seq<Checkpoint>, ghost manifestKeys: seq<string>)
    returns (out: seq<Checkpoint>, ghost keys: seq<string>)
    requires Distinct(manifestKeys) && |manifests| == |manifestKeys|
    requires forall i :: 0 <= i < |manifestKeys| ==> manifestKeys[i] in st.cp && manifests[i] == st.cp[manifestKeys[i]]
    ensures forall i :: 0 <= i < |out| ==> out[i] in manifests && EachOrphanOrOwned(st.snaps, owned, out[i])
    ensures forall i :: 0 <= i < |manifests| && AllHoldersOwned(st.snaps, owned, manifests[i]) ==> manifests[i] in out
    ensures Distinct(keys) && |out| == |keys|
    ensures forall t :: 0 <= t < |keys| ==> keys[t] in st.cp && out[t] == st.cp[keys[t]]
    ensures forall t :: 0 <= t < |manifests| && AllHoldersOwned(st.snaps, owned, manifests[t]) ==> manifestKeys[t] in keys
  {
    out := [];
    keys := [];
    ghost var kept: seq<int> := [];
    for i := 0 to |manifests|
      invariant Distinct(keys) && |out| == |keys| == |kept|
      invariant forall t :: 0 <= t < |kept| ==>
                  && 0 <= kept[t] < i && keys[t] == manifestKeys[kept[t]] && out[t] == manifests[kept[t]]
                  && EachOrphanOrOwned(st.snaps, owned, out[t])
      invariant forall t :: 0 <= t < i && AllHoldersOwned(st.snaps, owned, manifests[t]) ==>
                  manifestKeys[t] in keys && manifests[t] in out
    {
      var c := manifests[i];
      var keep := ManifestVisible(st, owned, c);
      if keep {
        out := out + [c];
        keys := keys + [manifestKeys[i]];
        kept := kept + [i];
      }
    }
  }

  /** The ids of the caller's volumes, as the listing collects them into a set. */
  method OwnedVolumeIds(st: FileStore, principal: string) returns (owned: set<string>)
    ensures owned == OwnedIds(st.volumes, principal)
  {
    var owners, ownerKeys := st.ListVolumesByOwner(principal);
    owned := {};
    for i := 0 to |owners|
      invariant owned == set j | 0 <= j < i :: owners[j].volumeId
    {
      owned := owned + {owners[i].volumeId};
    }
    OwnedSetIsOwnedIds(st.volumes, principal, owners, ownerKeys, owned);
  }

  /**
    * The inner loop of the listing: a manifest stays visible unless one of its snapshot ids
    * resolves to a volume outside `owned`.
    */
  method ManifestVisible(st: FileStore, owned: set<string>, c: Checkpoint) returns (keep: bool)
    ensures keep ==> EachOrphanOrOwned(st.snaps, owned, c)
    ensures AllHoldersOwned(st.snaps, owned, c) ==> keep
  {
    keep := true;
    for j := 0 to |c.snapshotIds|
      invariant forall t :: 0 <= t < j ==>
                  (forall v :: v in st.snaps ==> !Holds(st.snaps[v], c.snapshotIds[t])) ||
                  (exists v :: v in st.snaps && Holds(st.snaps[v], c.snapshotIds[t]) && v in owned)
      invariant AllHoldersOwned(st.snaps, owned, c) ==> keep
    {
      var vid := st.VolumeIdForSnapshot(c.snapshotIds[j]);
      if vid.Some? && vid.value !in owned {
        keep := false;
        break;
      }
    }
  }

  /** The set the listing builds from the caller's volumes is the set of ids the caller owns. */
  lemma OwnedSetIsOwnedIds(volumes: map<string, Volume>, p: string, owners: seq<Volume>, ownerKeys: seq<string>,
                           owned: set<string>)
    requires |owners| == |ownerKeys|
    requires forall i :: 0 <= i < |ownerKeys| ==>
               ownerKeys[i] in volumes && owners[i] == volumes[ownerKeys[i]] && owners[i].ownerPrincipal == p
    requires forall k :: k in volumes && volumes[k].ownerPrincipal == p ==> k in ownerKeys
    requires owned == set j | 0 <= j < |owners| :: owners[j].volumeId
    ensures owned == OwnedIds(volumes, p)
  {
    forall x | x in OwnedIds(volumes, p) ensures x in owned {
      var k :| k in volumes && volumes[k].ownerPrincipal == p && x == volumes[k].volumeId;
      var j :| 0 <= j < |ownerKeys| && ownerKeys[j] == k;
      assert x == owners[j].volumeId;
    }
  }
}
