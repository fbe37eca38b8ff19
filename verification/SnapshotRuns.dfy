// CSI snapshots over runs that delete volumes: DeleteVolume is a step the survival theorem
// allows, and the guard it runs is exact.
module SnapshotRuns {
  import opened Results
  import opened Text
  import opened Zfs
  import opened Nas
  import opened Ownership
  import opened Promotion
  import opened Snapshots
  import IscsiDelete
  import NvmeDelete

  // ---------------------------------------------------------------- Runs

  // One call of a run. VolumeGone stands for a DeleteVolume, Other for any other call; both
  // keep what is protected (the delete modules prove it of DeleteVolume).
  datatype Event =
    | SnapshotMade(d: string, n: string, asked: bool, result: Result<()>)
    | SnapshotDropped(volumeId: string, n: string, answer: Option<seq<string>>, result: Result<()>)
    | VolumeGone
    | Other

  datatype Call = Call(event: Event, after: Pool)

  ghost predicate Takes(z: Pool, e: Event, z': Pool) {
    match e
    case SnapshotMade(d, n, asked, result) => SnapshotAttempt(z, z', d, n, asked, result)
    case SnapshotDropped(volumeId, n, answer, result) => SnapshotDrop(z, z', volumeId, n, answer, result)
    case VolumeGone => KeepsProtected(z, z')
    case Other => KeepsProtected(z, z')
  }

  ghost predicate Run(z: Pool, calls: seq<Call>)
    decreases |calls|
  {
    calls == [] || (Takes(z, calls[0].event, calls[0].after) && Run(calls[0].after, calls[1..]))
  }

  ghost function Final(z: Pool, calls: seq<Call>): Pool {
    if calls == [] then z else calls[|calls| - 1].after
  }

  // No DeleteSnapshot of the run was resolved to snapshot n of d.
  predicate NeverDropped(calls: seq<Call>, d: string, n: string) {
    forall k :: 0 <= k < |calls| && calls[k].event.SnapshotDropped? ==>
      !(Resolved(calls[k].event.volumeId, calls[k].event.answer) == Some(d) && calls[k].event.n == n)
  }

  // It is enough that no ID aims at it, whatever the queries answer.
  lemma UnaimedIsNeverDropped(calls: seq<Call>, d: string, n: string)
    requires forall k :: 0 <= k < |calls| && calls[k].event.SnapshotDropped? && calls[k].event.n == n ==>
               !Aims(calls[k].event.volumeId, d)
    ensures NeverDropped(calls, d, n)
  {
  }

  // A protected snapshot survives every run that never deletes it by name.
  lemma {:induction false} ProtectedSurvives(z: Pool, calls: seq<Call>, d: string, s: Snap)
    requires Run(z, calls) && Protected(z, d, s) && NeverDropped(calls, d, s.name)
    ensures Protected(Final(z, calls), d, s)
    decreases |calls|
  {
    if calls != [] {
      var z' := calls[0].after;
      assert NeverDropped(calls[1..], d, s.name);
      assert Protected(z', d, s) by {
        if calls[0].event.SnapshotMade? && z' != z {
          var e := calls[0].event;
          var g, csi :| Adds(z, z', e.d, e.n, g, csi);
        }
      }
      assert Final(z', calls[1..]) == Final(z, calls);
      ProtectedSurvives(z', calls[1..], d, s);
    }
  }

  // A snapshot CreateSnapshot newly made, and returned, survives every later run of
  // creates, deletes and volume deletions under any failures that never deletes it.
  lemma NewSnapshotsSurvive(z: Pool, d: string, n: string, asked: bool, z': Pool, calls: seq<Call>)
    requires SnapshotAttempt(z, z', d, n, asked, Ok(())) && !Named(z, d, n)
    requires Run(z', calls) && NeverDropped(calls, d, n)
    ensures Named(Final(z', calls), d, n)
    ensures exists s: Snap :: s.name == n && s !in z[d].snaps && Protected(Final(z', calls), d, s)
  {
    var g :| Adds(z, z', d, n, g, true);
    var s := Snap(g, n, true, false);
    assert s in z'[d].snaps;
    assert s !in z[d].snaps;
    ProtectedSurvives(z', calls, d, s);
  }

  // A name is new on every dataset whenever the uniqueness query was answered.
  lemma NewNamesAreUnique(z: Pool, d: string, n: string, z': Pool, e: string)
    requires SnapshotAttempt(z, z', d, n, true, Ok(())) && !Named(z, d, n) && e != d
    ensures !Named(z', e, n)
  {
    var g :| Adds(z, z', d, n, g, true);
    assert !Named(z, e, n);
  }

  // ---------------------------------------------------------------- Deletions

  // Deleting a volume over either block protocol is a VolumeGone step of a run.
  lemma IscsiDeletionIsVolumeGone(m: IscsiDelete.Meta, s: Store, f: Schedule, s': Store, r: Result<()>)
    requires IscsiDelete.Deletion(m, s, f, s', r)
    ensures Takes(s.pool, VolumeGone, s'.pool)
  {
  }

  lemma NvmeDeletionIsVolumeGone(m: NvmeDelete.Meta, silent: bool, s: Store, f: Schedule, s': Store, r: Result<()>,
          calls: NvmeDelete.Trace)
    requires NvmeDelete.Deletion(m, silent, s, f, s', r, calls)
    ensures Takes(s.pool, VolumeGone, s'.pool)
  {
  }

  // With no other obstacle, a delete without faults destroys the volume exactly if the
  // guard finds no protected snapshot: a snapshot that lacks snapshot_id does not stop it.
  lemma GuardIsExact(m: IscsiDelete.Meta, s: Store, f: Schedule, s': Store, r: Result<()>)
    requires m.zvol in s.pool && Belongs(m.name, s.pool[m.zvol].props) && !Retained(s.pool[m.zvol].props)
    requires Removable(s.pool, m.zvol) && Pending(f) == 0
    requires IscsiDelete.Deletion(m, s, f, s', r)
    ensures m.zvol !in s'.pool <==> NoneProtectedOn(s.pool, m.zvol)
  {
    if NoneProtectedOn(s.pool, m.zvol) { assert IscsiDelete.Deletable(s, m.name, m.zvol); }
    else { assert s' == s || NoneProtectedOn(s.pool, m.zvol); }
  }

  // The snapshot CreateSnapshot returns on the idempotent branch is whatever is there. It
  // is safe from a later DeleteVolume if it is protected ...
  lemma IdempotentSnapshotSurvives(z: Pool, d: string, n: string, asked: bool, t: Snap, calls: seq<Call>)
    requires SnapshotAttempt(z, z, d, n, asked, Ok(())) && Run(z, calls) && NeverDropped(calls, d, n)
    requires t.name == n && Protected(z, d, t)
    ensures Protected(Final(z, calls), d, t)
  {
    ProtectedSurvives(z, calls, d, t);
  }

  // ... and only if something on its volume is: when the volume can be deleted after the call
  // that returned it, the next delete without faults takes it along.
  lemma IdempotentSnapshotLost(z: Pool, m: IscsiDelete.Meta, n: string, asked: bool, s: Store, f: Schedule, s': Store,
          r: Result<()>)
    requires SnapshotAttempt(z, s.pool, m.zvol, n, asked, Ok(())) && Named(z, m.zvol, n)
    requires IscsiDelete.Deletable(s, m.name, m.zvol) && Pending(f) == 0
    requires IscsiDelete.Deletion(m, s, f, s', r)
    ensures s.pool == z && Named(s.pool, m.zvol, n) && !Named(s'.pool, m.zvol, n)
  {
  }

  // Such a state: the snapshot exists without snapshot_id, CreateSnapshot answers that it
  // is there, and its volume can be deleted.
  lemma UnmarkedSnapshotExists() returns (m: IscsiDelete.Meta, s: Store)
    ensures WfStore(s) && Named(s.pool, m.zvol, "snap")
    ensures SnapshotAttempt(s.pool, s.pool, m.zvol, "snap", true, Ok(()))
    ensures IscsiDelete.Deletable(s, m.name, m.zvol)
  {
    m := IscsiDelete.Meta("tank/pvc-1", "tank/pvc-1", 0, 0, "");
    var pool := OneSnap(m.zvol, false);
    s := Store(pool, map[], map[], map[], map[], map[]);
    OneSnapIs(m.zvol, false);
    assert Belongs(m.name, s.pool[m.zvol].props);
  }

  // A volume with one snapshot.
  function OneSnap(d: string, csi: bool): Pool {
    map[d := Dataset(1, PLAIN, None, [Snap(1, "snap", csi, false)])]
  }

  lemma OneSnapIs(d: string, csi: bool)
    ensures var z := OneSnap(d, csi); Wf(z) && Removable(z, d)
    ensures forall x :: Named(OneSnap(d, csi), x, "snap") <==> x == d
    ensures if csi then Protected(OneSnap(d, csi), d, Snap(1, "snap", csi, false))
      else NoneProtectedOn(OneSnap(d, csi), d)
  {
    var z := OneSnap(d, csi);
    assert z[d].snaps == [Snap(1, "snap", csi, false)];
    assert Ranked(z, map[d := 0]);
    DestroyableIsRemovable(z, d);
    assert Snap(1, "snap", csi, false) in z[d].snaps;
  }

  // A delete that the ID resolves to d takes its snapshot.
  lemma OneSnapDropped(d: string, volumeId: string)
    requires '/' !in volumeId && Contains(d, volumeId)
    ensures var z := OneSnap(d, true);
            var z' := DeleteSnap(z, d, 1);
            SnapshotDrop(z, z', volumeId, "snap", Some([d]), Ok(())) && !Protected(z', d, Snap(1, "snap", true, false))
  {
    var z := OneSnap(d, true);
    OneSnapIs(d, true);
    assert IsSnap(z, d, "snap", 1);
    DeleteSnapKeepsWf(z, d, 1);
    DeleteReleases(z, d, "snap", 1);
    assert Resolved(volumeId, Some([d])) == Some(d);
  }

  // An old-format ID can resolve to another volume whose path happens to contain it: a
  // repeated delete of pvc-1's snapshot takes the one pvc-10 has under the same name.
  lemma AnotherVolumesSnapshotIsTaken() returns (z: Pool, z': Pool, s: Snap)
    ensures Wf(z) && Protected(z, "tank/pvc-10", s) && s.name == "snap" && !Named(z, "tank/pvc-1", "snap")
    ensures SnapshotDrop(z, z', "pvc-1", "snap", Some(["tank/pvc-10"]), Ok(()))
    ensures !Protected(z', "tank/pvc-10", s)
  {
    var other := "tank/pvc-10";
    z := OneSnap(other, true);
    s := Snap(1, "snap", true, false);
    OneSnapIs(other, true);
    z' := DeleteSnap(z, other, 1);
    assert other[5..] == "pvc-10" && "pvc-1" <= other[5..];
    OneSnapDropped(other, "pvc-1");
  }

  // A delete whose name query fails succeeds although its snapshot is there and stays.
  lemma UnansweredDropKeepsSnapshot() returns (z: Pool, s: Snap)
    ensures Wf(z) && Protected(z, "tank/pvc-1", s) && s.name == "snap"
    ensures SnapshotDrop(z, z, "pvc-1", "snap", None, Ok(()))
  {
    z := OneSnap("tank/pvc-1", true);
    s := Snap(1, "snap", true, false);
    OneSnapIs("tank/pvc-1", true);
  }
}
