/**
  * The metadata store of aionFS: an in-memory mirror of three maps (volumes by id,
  * snapshot histories by volume id, checkpoint manifests by id) that is written through
  * to a single state file after every mutation.
  *
  * The file itself is abstract here: a flush either commits the whole current state
  * (temporary file plus atomic rename) or fails and leaves the last committed state in
  * place. Which of the two happens is an input of each mutating operation (`ioOk`).
  */
module Store {
  import opened Wrappers

  /** Timestamps; `ZeroTime` stands for Go's zero `time.Time`, the value `IsZero` accepts. */
  type Time = int
  const ZeroTime: Time := 0

  datatype MountInfo = MountInfo(mode: string, hostPath: string, state: string)

  datatype Session = Session(sessionId: string, principal: string, consumerEndpoint: string, attachedAt: Time)

  datatype Volume = Volume(
    volumeId: string,
    ownerPrincipal: string,
    volumeClass: string,
    quotaBytes: int,
    policyProfile: string,
    exportMode: string,
    mountHandle: MountInfo,
    attachState: string,
    attachSession: Option<Session>,
    createdAt: Time,
    updatedAt: Time)

  datatype Snapshot = Snapshot(snapshotId: string, volumeId: string, createdAt: Time, note: string)

  datatype Checkpoint = Checkpoint(manifestId: string, snapshotIds: seq<string>, createdAt: Time, note: string)

  /** The three collections that the state file holds. */
  datatype State = State(
    volumes: map<string, Volume>,
    snaps: map<string, seq<Snapshot>>,
    cp: map<string, Checkpoint>)

  const EmptyState: State := State(map[], map[], map[])

  /** What is found at the state file's path when the store is opened. */
  datatype StateFile = Missing | Unreadable | Undecodable | Stored(state: State)

  datatype StoreError = VolumeNotFound | IoError

  // ---------------------------------------------------------------------------
  // Specification functions
  // ---------------------------------------------------------------------------

  predicate Distinct<T(==)>(s: seq<T>) {
    forall i, j :: 0 <= i < j < |s| ==> s[i] != s[j]
  }

  /** `keys` lists every key of `m` exactly once, in some order (Go's map iteration order). */
  ghost predicate ListsKeys<V>(m: map<string, V>, keys: seq<string>) {
    && Distinct(keys)
    && (forall i :: 0 <= i < |keys| ==> keys[i] in m)
    && (forall k :: k in m ==> k in keys)
  }

  /** Every volume is stored under its own id. */
  ghost predicate KeyedById(volumes: map<string, Volume>) {
    forall id :: id in volumes ==> volumes[id].volumeId == id
  }

  /** The history of a volume; a volume without an entry has the empty history (Go's nil slice). */
  function SnapshotsOf(snaps: map<string, seq<Snapshot>>, volumeId: string): seq<Snapshot> {
    if volumeId in snaps then snaps[volumeId] else []
  }

  /** Some snapshot in `list` carries the id `snapshotId`. */
  predicate Holds(list: seq<Snapshot>, snapshotId: string) {
    exists j :: 0 <= j < |list| && list[j].snapshotId == snapshotId
  }

  predicate IsPrefix<T(==)>(a: seq<T>, b: seq<T>) {
    |a| <= |b| && b[..|a|] == a
  }

  /** The record an upsert of `v` stores at time `now`, given the volumes already present. */
  function Stamped(volumes: map<string, Volume>, v: Volume, now: Time): (w: Volume)
    ensures w.updatedAt == now
    ensures v.volumeId !in volumes ==> w.createdAt == now
    ensures v.volumeId in volumes && volumes[v.volumeId].createdAt == ZeroTime ==> w.createdAt == now
    ensures v.volumeId in volumes && volumes[v.volumeId].createdAt != ZeroTime ==>
              w.createdAt == volumes[v.volumeId].createdAt
    ensures w.(createdAt := v.createdAt, updatedAt := v.updatedAt) == v
  {
    if v.volumeId in volumes && volumes[v.volumeId].createdAt != ZeroTime then
      v.(updatedAt := now, createdAt := volumes[v.volumeId].createdAt)
    else
      v.(updatedAt := now, createdAt := now)
  }

  /** The in-memory state after upserting `v`: only the key `v.volumeId` changes. */
  function PutVolumeState(s: State, v: Volume, now: Time): (r: State)
    ensures r.snaps == s.snaps && r.cp == s.cp
    ensures r.volumes.Keys == s.volumes.Keys + {v.volumeId}
    ensures r.volumes[v.volumeId] == Stamped(s.volumes, v, now)
    ensures forall k :: k in s.volumes && k != v.volumeId ==> r.volumes[k] == s.volumes[k]
  {
    s.(volumes := s.volumes[v.volumeId := Stamped(s.volumes, v, now)])
  }

  /** The in-memory state after appending `snap` to the history of `volumeId`. */
  function AppendSnapshot(s: State, volumeId: string, snap: Snapshot): (r: State)
    ensures r.volumes == s.volumes && r.cp == s.cp
    ensures r.snaps.Keys == s.snaps.Keys + {volumeId}
    ensures SnapshotsOf(r.snaps, volumeId) == SnapshotsOf(s.snaps, volumeId) + [snap]
    ensures forall k :: k != volumeId ==> SnapshotsOf(r.snaps, k) == SnapshotsOf(s.snaps, k)
  {
    s.(snaps := s.snaps[volumeId := SnapshotsOf(s.snaps, volumeId) + [snap]])
  }

  /** The in-memory state after storing manifest `c` under its own id. */
  function PutCheckpointState(s: State, c: Checkpoint): (r: State)
    ensures r.volumes == s.volumes && r.snaps == s.snaps
    ensures r.cp.Keys == s.cp.Keys + {c.manifestId} && r.cp[c.manifestId] == c
    ensures forall k :: k in s.cp && k != c.manifestId ==> r.cp[k] == s.cp[k]
  {
    s.(cp := s.cp[c.manifestId := c])
  }

  /** The in-memory state after deleting volume `id`: no cascade to histories or manifests. */
  function RemoveVolume(s: State, id: string): (r: State)
    ensures r.snaps == s.snaps && r.cp == s.cp
    ensures r.volumes.Keys == s.volumes.Keys - {id}
    ensures forall k :: k in r.volumes ==> r.volumes[k] == s.volumes[k]
  {
    s.(volumes := s.volumes - {id})
  }

  // ---------------------------------------------------------------------------
  // The store object
  // ---------------------------------------------------------------------------

  class FileStore {
    var volumes: map<string, Volume>
    var snaps: map<string, seq<Snapshot>>
    var cp: map<string, Checkpoint>
    /** The contents of the state file: what the store was opened from, or the last committed flush. */
    ghost var persisted: StateFile

    function Current(): State
      reads this
    {
      State(volumes, snaps, cp)
    }

    ghost predicate WellKeyed()
      reads this
    {
      KeyedById(volumes)
    }

    /** Builds the store from a state file that is absent (empty maps) or decodes. */
    constructor FromFile(file: StateFile)
      requires file.Missing? || file.Stored?
      ensures Current() == (if file.Stored? then file.state else EmptyState)
      ensures persisted == file
    {
      if file.Stored? {
        volumes, snaps, cp := file.state.volumes, file.state.snaps, file.state.cp;
      } else {
        volumes, snaps, cp := map[], map[], map[];
      }
      persisted := file;
    }

    /** Writes the whole current state to the file, or fails and leaves the committed file as it was. */
    method FlushLocked(ioOk: bool) returns (err: Option<StoreError>)
      modifies this`persisted
      ensures err == (if ioOk then None else Some(IoError))
      ensures persisted == (if ioOk then Stored(Current()) else old(persisted))
    {
      if !ioOk {
        return Some(IoError);
      }
      persisted := Stored(Current());
      return None;
    }

    /** Flushes once more before shutdown. */
    method Close(ioOk: bool) returns (err: Option<StoreError>)
      modifies this`persisted
      ensures err == (if ioOk then None else Some(IoError))
      ensures persisted == (if ioOk then Stored(Current()) else old(persisted))
    {
      err := FlushLocked(ioOk);
    }

    method ListVolumes() returns (out: seq<Volume>, ghost keys: seq<string>)
      ensures |out| == |volumes|
      ensures forall i :: 0 <= i < |out| ==> out[i] in volumes.Values
      ensures forall k :: k in volumes ==> volumes[k] in out
      ensures ListsKeys(volumes, keys)
      ensures |out| == |keys|
      ensures forall i :: 0 <= i < |keys| ==> keys[i] in volumes && out[i] == volumes[keys[i]]
    {
      var rest := volumes.Keys;
      out := [];
      keys := [];
      while rest != {}
        invariant rest <= volumes.Keys
        invariant |out| == |keys| && Distinct(keys) && |keys| + |rest| == |volumes|
        invariant forall i :: 0 <= i < |keys| ==> keys[i] in volumes && keys[i] !in rest && out[i] == volumes[keys[i]]
        invariant forall k :: k in volumes && k !in rest ==> k in keys && volumes[k] in out
        decreases rest
      {
        var id :| id in rest;
        out := out + [volumes[id]];
        keys := keys + [id];
        rest := rest - {id};
      }
    }

    method ListVolumesByOwner(owner: string) returns (out: seq<Volume>, ghost keys: seq<string>)
      ensures forall i :: 0 <= i < |out| ==> out[i] in volumes.Values && out[i].ownerPrincipal == owner
      ensures forall k :: k in volumes && volumes[k].ownerPrincipal == owner ==> volumes[k] in out
      ensures Distinct(keys) && |out| == |keys|
      ensures forall i :: 0 <= i < |keys| ==>
                keys[i] in volumes && out[i] == volumes[keys[i]] && out[i].ownerPrincipal == owner
      ensures forall k :: k in volumes && volumes[k].ownerPrincipal == owner ==> k in keys
    {
      var rest := volumes.Keys;
      out := [];
      keys := [];
      while rest != {}
        invariant rest <= volumes.Keys
        invariant |out| == |keys| && Distinct(keys)
        invariant forall i :: 0 <= i < |keys| ==>
                    keys[i] in volumes && keys[i] !in rest && out[i] == volumes[keys[i]] && out[i].ownerPrincipal == owner
        invariant forall k :: k in volumes && k !in rest && volumes[k].ownerPrincipal == owner ==> k in keys && volumes[k] in out
        decreases rest
      {
        var id :| id in rest;
        if volumes[id].ownerPrincipal == owner {
          out := out + [volumes[id]];
          keys := keys + [id];
        }
        rest := rest - {id};
      }
    }

    method GetVolume(id: string) returns (r: Result<Volume, StoreError>)
      ensures r.Failure? <==> id !in volumes
      ensures r.Failure? ==> r.error == VolumeNotFound
      ensures r.Success? ==> r.value == volumes[id]
    {
      if id !in volumes {
        return Failure(VolumeNotFound);
      }
      return Success(volumes[id]);
    }

    /** Upserts `v`; the map is changed before the flush, so it keeps the change when the flush fails. */
    method PutVolume(v: Volume, now: Time, ioOk: bool) returns (r: Result<Volume, StoreError>)
      modifies this
      ensures Current() == PutVolumeState(old(Current()), v, now)
      ensures r == (if ioOk then Success(Stamped(old(volumes), v, now)) else Failure(IoError))
      ensures persisted == (if ioOk then Stored(Current()) else old(persisted))
      ensures old(WellKeyed()) ==> WellKeyed()
    {
      var w := v.(updatedAt := now);
      if v.volumeId in volumes {
        if volumes[v.volumeId].createdAt != ZeroTime {
          w := w.(createdAt := volumes[v.volumeId].createdAt);
        } else {
          w := w.(createdAt := now);
        }
      } else {
        w := w.(createdAt := now);
      }
      volumes := volumes[v.volumeId := w];
      var err := FlushLocked(ioOk);
      if err.Some? {
        return Failure(err.value);
      }
      return Success(w);
    }

    /** Appends `snap` to the history of `volumeId`, which must be a known volume. */
    method AddSnapshot(volumeId: string, snap: Snapshot, ioOk: bool) returns (r: Result<Snapshot, StoreError>)
      modifies this
      ensures volumeId !in old(volumes) ==>
                r == Failure(VolumeNotFound) && unchanged(this)
      ensures volumeId in old(volumes) ==>
                && Current() == AppendSnapshot(old(Current()), volumeId, snap)
                && r == (if ioOk then Success(snap) else Failure(IoError))
                && persisted == (if ioOk then Stored(Current()) else old(persisted))
    {
      if volumeId !in volumes {
        return Failure(VolumeNotFound);
      }
      var list := SnapshotsOf(snaps, volumeId) + [snap];
      snaps := snaps[volumeId := list];
      var err := FlushLocked(ioOk);
      if err.Some? {
        return Failure(err.value);
      }
      return Success(snap);
    }

    /** A copy of the history of `volumeId`, oldest first; empty for an unknown volume. */
    method ListSnapshots(volumeId: string) returns (list: seq<Snapshot>)
      ensures volumeId !in snaps ==> list == []
      ensures volumeId in snaps ==> list == snaps[volumeId]
    {
      list := [] + SnapshotsOf(snaps, volumeId);
    }

    /** The most recently appended snapshot of `volumeId`, if any. */
    method LatestSnapshot(volumeId: string) returns (r: Option<Snapshot>)
      ensures r.None? <==> |SnapshotsOf(snaps, volumeId)| == 0
      ensures r.Some? ==> r.value == SnapshotsOf(snaps, volumeId)[|SnapshotsOf(snaps, volumeId)| - 1]
    {
      var list := SnapshotsOf(snaps, volumeId);
      if |list| == 0 {
        return None;
      }
      return Some(list[|list| - 1]);
    }

    /** Searches every history for `snapshotId` and names a volume whose history holds it. */
    method VolumeIdForSnapshot(snapshotId: string) returns (r: Option<string>)
      ensures r.Some? ==> r.value in snaps && Holds(snaps[r.value], snapshotId)
      ensures r.None? <==> forall v :: v in snaps ==> !Holds(snaps[v], snapshotId)
    {
      var rest := snaps.Keys;
      while rest != {}
        invariant rest <= snaps.Keys
        invariant forall v :: v in snaps && v !in rest ==> !Holds(snaps[v], snapshotId)
        decreases rest
      {
        var vid :| vid in rest;
        var list := snaps[vid];
        var j := 0;
        while j < |list|
          invariant 0 <= j <= |list|
          invariant forall t :: 0 <= t < j ==> list[t].snapshotId != snapshotId
        {
          if list[j].snapshotId == snapshotId {
            return Some(vid);
          }
          j := j + 1;
        }
        rest := rest - {vid};
      }
      return None;
    }

    /** Stores manifest `c` under its own id. */
    method PutCheckpoint(c: Checkpoint, ioOk: bool) returns (r: Result<Checkpoint, StoreError>)
      modifies this
      ensures Current() == PutCheckpointState(old(Current()), c)
      ensures r == (if ioOk then Success(c) else Failure(IoError))
      ensures persisted == (if ioOk then Stored(Current()) else old(persisted))
    {
      cp := cp[c.manifestId := c];
      var err := FlushLocked(ioOk);
      if err.Some? {
        return Failure(err.value);
      }
      return Success(c);
    }

    method ListCheckpoints() returns (out: seq<Checkpoint>, ghost keys: seq<string>)
      ensures |out| == |cp|
      ensures forall i :: 0 <= i < |out| ==> out[i] in cp.Values
      ensures forall k :: k in cp ==> cp[k] in out
      ensures ListsKeys(cp, keys)
      ensures |out| == |keys|
      ensures forall i :: 0 <= i < |keys| ==> keys[i] in cp && out[i] == cp[keys[i]]
    {
      var rest := cp.Keys;
      out := [];
      keys := [];
      while rest != {}
        invariant rest <= cp.Keys
        invariant |out| == |keys| && Distinct(keys) && |keys| + |rest| == |cp|
        invariant forall i :: 0 <= i < |keys| ==> keys[i] in cp && keys[i] !in rest && out[i] == cp[keys[i]]
        invariant forall k :: k in cp && k !in rest ==> k in keys && cp[k] in out
        decreases rest
      {
        var id :| id in rest;
        out := out + [cp[id]];
        keys := keys + [id];
        rest := rest - {id};
      }
    }

    /** Removes volume `id`; its snapshot history and the manifests naming it stay. */
    method DeleteVolume(id: string, ioOk: bool) returns (err: Option<StoreError>)
      modifies this
      ensures id !in old(volumes) ==>
                err == Some(VolumeNotFound) && unchanged(this)
      ensures id in old(volumes) ==>
                && Current() == RemoveVolume(old(Current()), id)
                && err == (if ioOk then None else Some(IoError))
                && persisted == (if ioOk then Stored(Current()) else old(persisted))
      ensures old(WellKeyed()) ==> WellKeyed()
    {
      if id !in volumes {
        return Some(VolumeNotFound);
      }
      volumes := volumes - {id};
      err := FlushLocked(ioOk);
    }
  }

  /** Opens the store: a missing file gives empty maps, an unreadable or undecodable one an error. */
  method NewFileStore(file: StateFile) returns (r: Result<FileStore, StoreError>)
    ensures r.Failure? <==> file.Unreadable? || file.Undecodable?
    ensures r.Failure? ==> r.error == IoError
    ensures r.Success? ==> fresh(r.value) && r.value.persisted == file
    ensures r.Success? && file.Missing? ==> r.value.Current() == EmptyState
    ensures r.Success? && file.Stored? ==> r.value.Current() == file.state
  {
    if file.Unreadable? || file.Undecodable? {
      return Failure(IoError);
    }
    var st := new FileStore.FromFile(file);
    return Success(st);
  }

  // ---------------------------------------------------------------------------
  // Histories of mutations
  // ---------------------------------------------------------------------------

  /** One mutating store call, as its in-memory effect (the flush outcome does not change it). */
  datatype Mutation =
    | PutVolumeOp(v: Volume, now: Time)
    | AddSnapshotOp(volumeId: string, snap: Snapshot)
    | PutCheckpointOp(c: Checkpoint)
    | DeleteVolumeOp(id: string)

  function Apply(s: State, m: Mutation): State {
    match m
    case PutVolumeOp(v, now) => PutVolumeState(s, v, now)
    case AddSnapshotOp(vid, snap) => if vid in s.volumes then AppendSnapshot(s, vid, snap) else s
    case PutCheckpointOp(c) => PutCheckpointState(s, c)
    case DeleteVolumeOp(id) => if id in s.volumes then RemoveVolume(s, id) else s
  }

  function ApplyAll(s: State, ms: seq<Mutation>): State
    decreases |ms|
  {
    if ms == [] then s else ApplyAll(Apply(s, ms[0]), ms[1..])
  }

  /** Snapshot histories are append-only: whatever happens, an old history is a prefix of the new one. */
  lemma {:induction false} HistoriesOnlyGrow(s: State, ms: seq<Mutation>, volumeId: string)
    ensures IsPrefix(SnapshotsOf(s.snaps, volumeId), SnapshotsOf(ApplyAll(s, ms).snaps, volumeId))
    decreases |ms|
  {
    if ms != [] {
      var s1 := Apply(s, ms[0]);
      assert IsPrefix(SnapshotsOf(s.snaps, volumeId), SnapshotsOf(s1.snaps, volumeId));
      HistoriesOnlyGrow(s1, ms[1..], volumeId);
    }
  }

  /** A volume's creation time never changes while the volume is not deleted. */
  lemma {:induction false} CreationTimeIsKept(s: State, ms: seq<Mutation>, id: string)
    requires id in s.volumes && s.volumes[id].createdAt != ZeroTime
    requires forall i :: 0 <= i < |ms| ==> ms[i] != DeleteVolumeOp(id)
    ensures id in ApplyAll(s, ms).volumes
    ensures ApplyAll(s, ms).volumes[id].createdAt == s.volumes[id].createdAt
    decreases |ms|
  {
    if ms != [] {
      var s1 := Apply(s, ms[0]);
      assert id in s1.volumes && s1.volumes[id].createdAt == s.volumes[id].createdAt;
      CreationTimeIsKept(s1, ms[1..], id);
    }
  }

  /** A volume first stored at a non-zero clock reading keeps that reading as its creation time until deleted. */
  lemma CreationStampIsKept(s: State, v: Volume, now: Time, ms: seq<Mutation>)
    requires v.volumeId !in s.volumes && now != ZeroTime
    requires forall i :: 0 <= i < |ms| ==> ms[i] != DeleteVolumeOp(v.volumeId)
    ensures v.volumeId in ApplyAll(PutVolumeState(s, v, now), ms).volumes
    ensures ApplyAll(PutVolumeState(s, v, now), ms).volumes[v.volumeId].createdAt == now
  {
    CreationTimeIsKept(PutVolumeState(s, v, now), ms, v.volumeId);
  }

  /** Checkpoint manifests are never removed, not even by deleting the volumes they name. */
  lemma {:induction false} ManifestsAreNeverRemoved(s: State, ms: seq<Mutation>)
    ensures s.cp.Keys <= ApplyAll(s, ms).cp.Keys
    decreases |ms|
  {
    if ms != [] {
      ManifestsAreNeverRemoved(Apply(s, ms[0]), ms[1..]);
    }
  }

  /** Every mutation keeps each volume stored under its own id. */
  lemma {:induction false} MutationsKeepKeys(s: State, ms: seq<Mutation>)
    requires KeyedById(s.volumes)
    ensures KeyedById(ApplyAll(s, ms).volumes)
    decreases |ms|
  {
    if ms != [] {
      var s1 := Apply(s, ms[0]);
      assert KeyedById(s1.volumes);
      MutationsKeepKeys(s1, ms[1..]);
    }
  }
}
