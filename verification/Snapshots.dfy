// CreateSnapshot and DeleteSnapshot for snapshots that stay with their volume.
module Snapshots {
  import opened Results
  import opened Text
  import opened Zfs
  import opened Nas

  // ---------------------------------------------------------------- CreateSnapshot

  // z' is z with the new snapshot g, named n, as the last one of d.
  ghost predicate Adds(z: Pool, z': Pool, d: string, n: string, g: nat, csi: bool) {
    d in z && !Named(z, d, n) && !Alive(z, g) && z' == AddSnap(z, d, Snap(g, n, csi, false))
  }

  // What CreateSnapshot guarantees. asked: the uniqueness query was answered.
  ghost predicate SnapshotAttempt(z: Pool, z': Pool, d: string, n: string, asked: bool, r: Result<()>) {
    && Wf(z')
    && (z' == z || exists g, csi :: Adds(z, z', d, n, g, csi))
    && (r.Ok? ==> (z' == z && Named(z, d, n)) || exists g :: Adds(z, z', d, n, g, true))
    && (asked && (exists e :: e != d && Named(z, e, n)) && !Named(z, d, n) ==> r == Err(AlreadyExists))
    && (r == Err(AlreadyExists) ==> z' == z && exists e :: e != d && Named(z, e, n))
  }

  // The new snapshot is new to the dataset, and no clone's origin.
  lemma AddedIsNew(z: Pool, z': Pool, d: string, n: string, g: nat, csi: bool)
    requires Wf(z) && Adds(z, z', d, n, g, csi)
    ensures forall t :: t in z[d].snaps ==> t.guid != g && t.name != n
    ensures Wf(z') && !IsOrigin(z', g)
  {
    AddSnapKeepsWf(z, d, Snap(g, n, csi, false));
    forall t | t in z[d].snaps ensures t.guid != g && t.name != n { assert Holds(z, d, t.guid); }
    forall c | c in z' ensures z'[c].origin != Some(g) {
      assert z'[c].origin == z[c].origin;
      assert z[c].origin.Some? ==> Alive(z, z[c].origin.value);
    }
  }

  lemma AddedIsLast(z: Pool, z': Pool, d: string, n: string, g: nat, csi: bool)
    requires Wf(z) && Adds(z, z', d, n, g, csi)
    ensures Wf(z') && !IsOrigin(z', g)
    ensures forall m, h :: IsSnap(z', d, m, h) && m == n ==> h == g
    ensures Mark(z'[d].snaps, g) == z[d].snaps + [Snap(g, n, true, false)]
    ensures Without(z'[d].snaps, g) == z[d].snaps
  {
    AddedIsNew(z, z', d, n, g, csi);
    assert forall i :: 0 <= i < |z[d].snaps| ==> z[d].snaps[i] in z[d].snaps;
    WithoutAppend(z[d].snaps, Snap(g, n, csi, false));
  }

  lemma {:induction false} WithoutAppend(snaps: seq<Snap>, s: Snap)
    requires forall t :: t in snaps ==> t.guid != s.guid
    ensures Without(snaps + [s], s.guid) == snaps
  {
    if snaps == [] {
      assert Without([s][1..], s.guid) == [];
    } else {
      assert (snaps + [s])[1..] == snaps[1..] + [s];
      assert snaps[0] in snaps;
      WithoutAppend(snaps[1..], s);
    }
  }

  // The last of two rewrites of d's snapshots counts.
  lemma Overwrites(z: Pool, d: string, xs: seq<Snap>, ys: seq<Snap>)
    requires d in z
    ensures var m := z[d := z[d].(snaps := xs)];
            m[d := m[d].(snaps := ys)] == z[d := z[d].(snaps := ys)]
  {
  }

  lemma MarkAdds(z: Pool, m: Pool, d: string, n: string, g: nat)
    requires Wf(z) && Adds(z, m, d, n, g, false)
    ensures Adds(z, m[d := m[d].(snaps := Mark(m[d].snaps, g))], d, n, g, true)
  {
    AddedIsLast(z, m, d, n, g, false);
    Overwrites(z, d, m[d].snaps, Mark(m[d].snaps, g));
  }

  lemma DeleteUndoesAdds(z: Pool, m: Pool, d: string, n: string, g: nat, csi: bool)
    requires Wf(z) && Adds(z, m, d, n, g, csi)
    ensures DeleteSnap(m, d, g) == z
  {
    AddedIsLast(z, m, d, n, g, csi);
    Overwrites(z, d, m[d].snaps, Without(m[d].snaps, g));
  }

  method MarkNew(nas: Client, ghost z: Pool, d: string, n: string, ghost g: nat)
    returns (r: Result<()>, ghost csi: bool)
    requires Wf(z) && Wf(nas.st.pool) && Adds(z, nas.st.pool, d, n, g, false)
    modifies nas`st, nas`faults
    ensures nas.st == old(nas.st).(pool := nas.st.pool) && Wf(nas.st.pool)
    ensures Adds(z, nas.st.pool, d, n, g, csi) && (r.Ok? ==> csi)
    ensures nas.faults == Tail(old(nas.faults)) && (r.Ok? <==> Head(old(nas.faults)).Fine?)
  {
    ghost var m := nas.st;
    csi := false;
    AddedIsLast(z, m.pool, d, n, g, false);
    MarkAdds(z, m.pool, d, n, g);
    r := nas.SetSnapshotId(d, n);
    if exists h :: MarkedSnap(m, nas.st, d, n, h) {
      ghost var h :| MarkedSnap(m, nas.st, d, n, h);
      assert IsSnap(m.pool, d, n, h) && h == g;
      csi := true;
    }
  }

  method RemoveNew(nas: Client, ghost z: Pool, d: string, n: string, ghost g: nat, ghost csi: bool)
    requires Wf(z) && Wf(nas.st.pool) && Adds(z, nas.st.pool, d, n, g, csi)
    modifies nas`st, nas`faults
    ensures nas.st == old(nas.st).(pool := nas.st.pool) && Wf(nas.st.pool)
    ensures nas.st.pool == z || Adds(z, nas.st.pool, d, n, g, csi)
    ensures Head(old(nas.faults)).Fine? ==> nas.st.pool == z
  {
    ghost var m := nas.st;
    AddedIsLast(z, m.pool, d, n, g, csi);
    DeleteUndoesAdds(z, m.pool, d, n, g, csi);
    var removed := nas.DeleteSnapshot(d, n);
    if nas.st != m || removed.Ok? {
      ghost var h :| DeletedSnap(m, nas.st, d, n, h);
      assert IsSnap(m.pool, d, n, h) && h == g;
    }
  }

  // Set snapshot_id on the new snapshot; without it the snapshot is removed again.
  method MarkOrRemove(nas: Client, ghost z: Pool, d: string, n: string, ghost g: nat) returns (r: Result<()>)
    requires Wf(z) && Wf(nas.st.pool) && Adds(z, nas.st.pool, d, n, g, false)
    modifies nas`st, nas`faults
    ensures nas.st == old(nas.st).(pool := nas.st.pool) && Wf(nas.st.pool)
    ensures r.Ok? ==> Adds(z, nas.st.pool, d, n, g, true)
    ensures r.Ok? <==> Head(old(nas.faults)).Fine?
    ensures r.Err? && Pending(old(nas.faults)) <= 1 ==> nas.st.pool == z
    ensures r.Err? ==> r.error == Internal && (nas.st.pool == z || exists csi :: Adds(z, nas.st.pool, d, n, g, csi))
  {
    var marked, csi := MarkNew(nas, z, d, n, g);
    if marked.Ok? { return Ok(()); }
    RemoveNew(nas, z, d, n, g, csi);
    r := Err(Internal);
  }

  // createRegularSnapshot. The first dataset reported to have the name decides between the
  // idempotent answer and the conflict.
  method CreateRegularSnapshot(nas: Client, d: string, n: string) returns (r: Result<()>)
    requires Wf(nas.st.pool)
    modifies nas`st, nas`faults
    ensures nas.st == old(nas.st).(pool := nas.st.pool)
    ensures SnapshotAttempt(old(nas.st).pool, nas.st.pool, d, n, Head(old(nas.faults)).Fine?, r)
    ensures Pending(old(nas.faults)) == 0 && d in old(nas.st).pool &&
            (forall e :: e != d ==> !Named(old(nas.st).pool, e, n)) ==>
      r.Ok? && (Named(old(nas.st).pool, d, n) ==> nas.st == old(nas.st))
    ensures r.Err? && Pending(old(nas.faults)) <= 1 && NoneApplied(old(nas.faults)) ==> nas.st == old(nas.st)
  {
    ghost var s := nas.st;
    var q := nas.SnapshotsNamed(n);
    if q.Ok? && |q.value| > 0 {
      assert q.value[0] in q.value;
      return if q.value[0] == d then Ok(()) else Err(AlreadyExists);
    }
    var made := nas.CreateSnapshot(d, n);
    if made.Err? {
      if nas.st != s {
        ghost var g :| CreatedSnap(s, nas.st, d, n, g);
        assert Adds(s.pool, nas.st.pool, d, n, g, false);
      }
      return Err(Internal);
    }
    r := MarkOrRemove(nas, s.pool, d, n, made.value);
  }

  // ---------------------------------------------------------------- DeleteSnapshot

  // A volume ID that is a dataset path names that dataset; an old-format ID names every
  // dataset whose path contains it.
  predicate Aims(volumeId: string, d: string) {
    if '/' in volumeId then d == volumeId else Contains(d, volumeId)
  }

  // The snapshots of d named n are all released: none is protected any more.
  ghost predicate Released(z: Pool, d: string, n: string) {
    forall s :: Protected(z, d, s) ==> s.name != n
  }

  // The first reported dataset whose path contains the ID.
  function FirstContaining(datasets: seq<string>, volumeId: string): (d: Option<string>)
    ensures d.Some? ==> d.value in datasets && Contains(d.value, volumeId)
    ensures d.None? ==> forall x :: x in datasets ==> !Contains(x, volumeId)
  {
    if datasets == [] then None
    else if Contains(datasets[0], volumeId) then Some(datasets[0])
    else FirstContaining(datasets[1..], volumeId)
  }

  // The dataset a DeleteSnapshot works on. answer: what the query by name reported, if it
  // was asked and answered.
  function Resolved(volumeId: string, answer: Option<seq<string>>): (d: Option<string>)
    ensures d.Some? ==> Aims(volumeId, d.value)
  {
    if '/' in volumeId then Some(volumeId)
    else if answer.None? then None
    else FirstContaining(answer.value, volumeId)
  }

  // datasets lists, in some order, those that have a snapshot named n.
  ghost predicate Reports(z: Pool, n: string, datasets: seq<string>) {
    forall d :: d in datasets <==> Named(z, d, n)
  }

  // Whatever is protected stays protected, except snapshots named n of the dataset at.
  ghost predicate ReleasesOnly(z: Pool, z': Pool, at: Option<string>, n: string) {
    forall x, s :: Protected(z, x, s) && !(at == Some(x) && s.name == n) ==> Protected(z', x, s)
  }

  // The snapshot n of d is deleted: it is gone, or if a clone needs it marked to go.
  ghost predicate Dropped(z: Pool, z': Pool, d: string, n: string) {
    exists g :: IsSnap(z, d, n, g) && z' == DeleteSnap(z, d, g)
  }

  // What one DeleteSnapshot guarantees.
  ghost predicate SnapshotDrop(z: Pool, z': Pool, volumeId: string, n: string, answer: Option<seq<string>>,
          r: Result<()>)
  {
    var at := Resolved(volumeId, answer);
    && Wf(z')
    && (answer.Some? ==> Reports(z, n, answer.value))
    && ReleasesOnly(z, z', at, n)
    && (at.None? ==> r.Ok? && z' == z)
    && (at.Some? ==>
          && (z' == z || Dropped(z, z', at.value, n))
          && (r.Ok? ==> Released(z', at.value, n) && (Named(z, at.value, n) ==> Dropped(z, z', at.value, n))))
  }

  // resolveZFSSnapshotName for IDs that hold the short name.
  method ResolveSnapshot(nas: Client, volumeId: string, n: string)
    returns (d: Option<string>, ghost answer: Option<seq<string>>)
    modifies nas`faults
    ensures Later(old(nas.faults), nas.faults)
    ensures d == Resolved(volumeId, answer)
    ensures answer.Some? <==> '/' !in volumeId && Head(old(nas.faults)).Fine?
    ensures answer.Some? ==> Reports(nas.st.pool, n, answer.value)
  {
    answer := None;
    if '/' in volumeId { return Some(volumeId), answer; }
    var q := nas.SnapshotsNamed(n);
    if q.Err? { return None, answer; }
    answer := Some(q.value);
    for i := 0 to |q.value|
      invariant FirstContaining(q.value, volumeId) == FirstContaining(q.value[i..], volumeId)
    {
      if Contains(q.value[i], volumeId) { return Some(q.value[i]), answer; }
    }
    d := None;
  }

  lemma DeleteReleases(z: Pool, d: string, n: string, g: nat)
    requires Wf(z) && IsSnap(z, d, n, g)
    ensures forall x, s :: Protected(z, x, s) && !(x == d && s.name == n) ==> Protected(DeleteSnap(z, d, g), x, s)
    ensures Released(DeleteSnap(z, d, g), d, n)
  {
    var z' := DeleteSnap(z, d, g);
    var t :| t in z[d].snaps && t.name == n && t.guid == g;
    forall x, s | Protected(z, x, s) && !(x == d && s.name == n) ensures Protected(z', x, s) {
      SameIfSameGuid(z, x, d, s, t);
      if x == d {
        var i :| 0 <= i < |z[d].snaps| && z[d].snaps[i] == s;
        assert IsOrigin(z, g) ==> z'[d].snaps[i] == s;
      }
    }
    forall s | s in z'[d].snaps && s.csi && !s.deferred ensures s.name != n {
      if IsOrigin(z, g) {
        var i :| 0 <= i < |z'[d].snaps| && z'[d].snaps[i] == s;
        assert z[d].snaps[i] in z[d].snaps && z[d].snaps[i] == s;
        SameName(z, d, s, t);
      } else {
        SameName(z, d, s, t);
      }
    }
  }

  // deleteRegularSnapshot; an ID that cannot be resolved counts as deleted.
  method DeleteRegularSnapshot(nas: Client, volumeId: string, n: string)
    returns (r: Result<()>, ghost answer: Option<seq<string>>)
    requires Wf(nas.st.pool)
    modifies nas`st, nas`faults
    ensures nas.st == old(nas.st).(pool := nas.st.pool)
    ensures SnapshotDrop(old(nas.st).pool, nas.st.pool, volumeId, n, answer, r)
    ensures answer.Some? <==> '/' !in volumeId && Head(old(nas.faults)).Fine?
    ensures Pending(old(nas.faults)) == 0 ==> r.Ok?
  {
    var resolved, a := ResolveSnapshot(nas, volumeId, n);
    answer := a;
    if resolved.None? { return Ok(()), answer; }
    var d := resolved.value;
    ghost var s := nas.st;
    r := nas.DeleteSnapshot(d, n);
    if nas.st != s || r.Ok? {
      ghost var g :| DeletedSnap(s, nas.st, d, n, g);
      DeleteReleases(s.pool, d, n, g);
    }
    if r.Err? { r := if r.error == NotFound then Ok(()) else Err(Internal); }
  }

  // A successful DeleteSnapshot releases a protected snapshot of the name exactly if the ID
  // was resolved to its dataset.
  lemma DropTakesIff(z: Pool, z': Pool, volumeId: string, n: string, answer: Option<seq<string>>, x: string, s: Snap)
    requires SnapshotDrop(z, z', volumeId, n, answer, Ok(())) && Protected(z, x, s) && s.name == n
    ensures !Protected(z', x, s) <==> Resolved(volumeId, answer) == Some(x)
  {
  }

  // An answered query resolves an old-format ID to its own dataset, in whatever order it
  // reports, exactly if that has the snapshot and no other dataset with a snapshot of the
  // name contains the ID.
  lemma ResolvesToOwnIff(z: Pool, volumeId: string, n: string, own: string)
    requires '/' !in volumeId && Contains(own, volumeId)
    ensures (forall answer :: Reports(z, n, answer) ==> Resolved(volumeId, Some(answer)) == Some(own))
       <==> Named(z, own, n) && forall x :: Named(z, x, n) && Contains(x, volumeId) ==> x == own
  {
    if forall answer :: Reports(z, n, answer) ==> Resolved(volumeId, Some(answer)) == Some(own) {
      var all := set d | d in z && Named(z, d, n);
      var listed := Listing(all);
      assert Reports(z, n, listed);
      assert Resolved(volumeId, Some(listed)) == Some(own);
      forall x | Named(z, x, n) && Contains(x, volumeId) ensures x == own {
        assert Reports(z, n, [x] + listed);
        assert Resolved(volumeId, Some([x] + listed)) == Some(x);
      }
    }
  }

  ghost function Listing(xs: set<string>): (r: seq<string>)
    ensures forall x :: x in r <==> x in xs
  {
    if xs == {} then [] else
      var x :| x in xs;
      [x] + Listing(xs - {x})
  }
}
