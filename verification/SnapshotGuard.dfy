// The ZVOL half of DeleteVolume: the guard on CSI-managed snapshots, snapshot cleanup and the
// retried destroy.
module SnapshotGuard {
  import opened Results
  import opened Zfs
  import opened Nas
  import opened Promotion

  // ---------------------------------------------------------------- Guard and destroy

  // Whether d has a snapshot that CSI owns and has not deleted.
  method HasCsiSnapshots(nas: Client, d: string) returns (r: Result<bool>)
    modifies nas`faults
    ensures nas.faults == Tail(old(nas.faults))
    ensures r.Ok? <==> Head(old(nas.faults)).Fine?
    ensures r.Ok? ==> (r.value <==> !NoneProtectedOn(nas.st.pool, d))
  {
    var q := nas.QuerySnapshots(d);
    if q.Err? { return Err(Unavailable); }
    var infos := q.value;
    for i := 0 to |infos|
      invariant nas.faults == Tail(old(nas.faults))
      invariant forall k :: 0 <= k < i ==> !(infos[k].hasSnapshotId && !infos[k].deferred)
    {
      if infos[i].hasSnapshotId {
        if infos[i].deferred { continue; }
        assert Protected(nas.st.pool, d, nas.st.pool[d].snaps[i]);
        return Ok(true);
      }
    }
    forall s ensures !Protected(nas.st.pool, d, s) {
      if d in nas.st.pool && s in nas.st.pool[d].snaps {
        var k :| 0 <= k < |nas.st.pool[d].snaps| && nas.st.pool[d].snaps[k] == s;
        assert infos[k].hasSnapshotId == s.csi;
      }
    }
    r := Ok(false);
  }

  // Every snapshot elsewhere that is not waiting for its last clone stays.
  ghost predicate KeepsElsewhere(z: Pool, z': Pool, d: string) {
    forall x, s :: x in z && x != d && s in z[x].snaps && !s.deferred ==> x in z' && s in z'[x].snaps
  }

  // z' is z after work on d alone, which held no protected snapshot.
  ghost predicate SparesOthers(z: Pool, z': Pool, d: string) {
    && Wf(z') && NoneProtectedOn(z, d) && NoneProtectedOn(z', d)
    && z'.Keys <= z.Keys && z.Keys - {d} <= z'.Keys
    && SameVolumes(z, z') && KeepsElsewhere(z, z', d)
  }

  // Nor has the work made d harder to remove, or easier if its newest snapshot with a clone
  // forbids it.
  ghost predicate Spares(z: Pool, z': Pool, d: string) {
    && SparesOthers(z, z', d)
    && (Removable(z, d) && d in z' ==> Removable(z', d))
    && (Stuck(z, d) && d in z' ==> Stuck(z', d))
  }

  lemma SparesTrans(z: Pool, z': Pool, z'': Pool, d: string)
    requires Spares(z, z', d) && Spares(z', z'', d)
    ensures Spares(z, z'', d)
  {
  }

  lemma SparesProtected(z: Pool, z': Pool, d: string)
    requires Spares(z, z', d)
    ensures KeepsProtected(z, z')
  {
    forall x, s | Protected(z, x, s) ensures Protected(z', x, s) { assert !Protected(z, d, s); }
  }

  lemma PromotedSpares(z: Pool, z': Pool, d: string)
    requires Wf(z) && Promoted(z, d, z') && NoneProtectedOn(z, d)
    ensures Spares(z, z', d)
  {
    forall x, s | x in z && x != d && s in z[x].snaps ensures s in z'[x].snaps {
      assert Holds(z, x, s.guid);
      assert !Holds(z, d, s.guid);
    }
    forall s ensures !Protected(z', d, s) {
      if d in z' && s in z'[d].snaps { assert s in z[d].snaps && !Protected(z, d, s); }
    }
    if Removable(z, d) { PromotedRemovable(z, d, z'); }
    if Stuck(z, d) { OthersStayStuck(z, d, z'); }
  }

  lemma DestroySpares(z: Pool, d: string)
    requires Wf(z) && CanDestroy(z, d) && NoneProtectedOn(z, d)
    ensures Spares(z, Destroy(z, d), d)
  {
    DestroyKeepsWf(z, d);
    forall x, s | x in z && x != d && s in z[x].snaps && !s.deferred ensures s in Destroy(z, d)[x].snaps {
      if exists q, g :: Reaps(z, d, q, g) {
        forall q, g | Reaps(z, d, q, g) ensures s in DropSnap(z - {d}, q, g)[x].snaps {
          var t :| t in z[q].snaps && t.guid == g && t.deferred;
          SameIfSameGuid(z, q, x, t, s);
        }
      }
    }
  }

  lemma DeleteSnapProtectsNone(z: Pool, d: string, g: nat)
    requires d in z && NoneProtectedOn(z, d)
    ensures NoneProtectedOn(DeleteSnap(z, d, g), d)
  {
    var z' := DeleteSnap(z, d, g);
    forall s ensures !Protected(z', d, s) {
      if s in z'[d].snaps {
        if IsOrigin(z, g) {
          var i :| 0 <= i < |z'[d].snaps| && z'[d].snaps[i] == s;
          assert !Protected(z, d, z[d].snaps[i]);
        } else {
          assert !Protected(z, d, s);
        }
      }
    }
  }

  lemma {:induction false} NewestOfWithout(z: Pool, snaps: seq<Snap>, g: nat)
    requires !IsOrigin(z, g)
    ensures NewestCloned(z, Without(snaps, g)) == NewestCloned(z, snaps)
  {
    if snaps != [] {
      NewestOfWithout(z, snaps[1..], g);
      assert snaps[0].guid != g ==> Without(snaps, g)[1..] == Without(snaps[1..], g);
    }
  }

  lemma DeleteSnapNewest(z: Pool, d: string, g: nat)
    requires d in z && !IsOrigin(z, g)
    ensures var z' := DeleteSnap(z, d, g); NewestCloned(z', z'[d].snaps) == NewestCloned(z, z[d].snaps)
  {
    var z' := DeleteSnap(z, d, g);
    assert forall c :: c in z ==> z'[c].origin == z[c].origin;
    NewestOfSame(z, z', z'[d].snaps);
    NewestOfWithout(z, z[d].snaps, g);
  }

  // Deleting a snapshot of d changes d's snapshots and nothing else.
  lemma DeleteSnapElsewhere(z: Pool, d: string, g: nat, c: string)
    requires d in z && c in z
    ensures var z' := DeleteSnap(z, d, g);
      c in z' && z'[c].origin == z[c].origin && (c != d ==> z'[c] == z[c])
  {
  }

  lemma DeleteSnapClones(z: Pool, d: string, g: nat, c: string)
    requires Wf(z) && d in z && ClonedFrom(DeleteSnap(z, d, g), c, d)
    ensures c != d && ClonedFrom(z, c, d) && DeleteSnap(z, d, g)[c] == z[c]
  {
    DeleteSnapElsewhere(z, d, g, c);
    DeleteSnapHolds(z, d, g, z[c].origin.value);
    NoOwnClone(z, c, d);
  }

  lemma DeleteSnapNames(z: Pool, d: string, g: nat)
    requires Wf(z) && d in z && NoClashes(z, d)
    ensures NoClashes(DeleteSnap(z, d, g), d)
  {
    var z' := DeleteSnap(z, d, g);
    forall c, s, u | s in z'[d].snaps && ClonedFrom(z', c, d) && u in z'[c].snaps ensures s.name != u.name {
      DeleteSnapClones(z, d, g, c);
      var t := DeletedWas(z, d, g, s);
    }
  }

  lemma DeletedWas(z: Pool, d: string, g: nat, s: Snap) returns (t: Snap)
    requires d in z && s in DeleteSnap(z, d, g)[d].snaps
    ensures t in z[d].snaps && t.name == s.name && t.guid == s.guid
  {
    if IsOrigin(z, g) {
      var i :| 0 <= i < |z[d].snaps| && DeleteSnap(z, d, g)[d].snaps[i] == s;
      t := z[d].snaps[i];
    } else {
      t := s;
    }
  }

  lemma DeleteSnapBlocks(z: Pool, d: string, g: nat)
    requires d in z
    ensures Blocked(DeleteSnap(z, d, g), d) <==> Blocked(z, d)
  {
    var z' := DeleteSnap(z, d, g);
    assert forall c :: c in z ==> z'[c].origin == z[c].origin;
    if s :| s in z[d].snaps && IsOrigin(z, s.guid) {
      if IsOrigin(z, g) {
        var i :| 0 <= i < |z[d].snaps| && z[d].snaps[i] == s;
        assert z'[d].snaps[i] in z'[d].snaps && z'[d].snaps[i].guid == s.guid;
      } else {
        assert s in z'[d].snaps;
      }
    }
    if s :| s in z'[d].snaps && IsOrigin(z', s.guid) { var t := DeletedWas(z, d, g, s); }
  }

  lemma DeleteSnapRemovable(z: Pool, d: string, g: nat)
    requires Wf(z) && Removable(z, d) && !IsOrigin(z, g)
    ensures Removable(DeleteSnap(z, d, g), d)
  {
    DeleteSnapNewest(z, d, g);
    DeleteSnapNames(z, d, g);
  }

  lemma DeleteSnapSparesOthers(z: Pool, d: string, g: nat)
    requires Wf(z) && d in z && NoneProtectedOn(z, d)
    ensures SparesOthers(z, DeleteSnap(z, d, g), d) && DeleteSnap(z, d, g).Keys == z.Keys
  {
    var z' := DeleteSnap(z, d, g);
    DeleteSnapKeepsWf(z, d, g);
    DeleteSnapProtectsNone(z, d, g);
    forall x | x in z ensures x in z' && (x != d ==> z'[x] == z[x]) { DeleteSnapElsewhere(z, d, g, x); }
  }

  lemma DeleteSnapSpares(z: Pool, d: string, g: nat)
    requires Wf(z) && d in z && NoneProtectedOn(z, d) && !IsOrigin(z, g)
    ensures Spares(z, DeleteSnap(z, d, g), d) && DeleteSnap(z, d, g).Keys == z.Keys
  {
    DeleteSnapNewest(z, d, g);
    DeleteSnapSparesOthers(z, d, g);
    if Removable(z, d) { DeleteSnapRemovable(z, d, g); }
  }

  lemma SparesSelf(z: Pool, d: string)
    requires Wf(z) && NoneProtectedOn(z, d)
    ensures Spares(z, z, d)
  {
  }

  // No snapshot of d with this name has a clone.
  ghost predicate Uncloned(z: Pool, d: string, name: string) {
    forall g :: IsSnap(z, d, name, g) ==> !IsOrigin(z, g)
  }

  lemma DeletedSpares(s: Store, s': Store, d: string, name: string)
    requires Wf(s.pool) && NoneProtectedOn(s.pool, d) && (s' == s || exists g :: DeletedSnap(s, s', d, name, g))
    requires Uncloned(s.pool, d, name)
    ensures Spares(s.pool, s'.pool, d) && s'.pool.Keys == s.pool.Keys && s' == s.(pool := s'.pool)
    ensures Blocked(s'.pool, d) <==> Blocked(s.pool, d)
  {
    SparesSelf(s.pool, d);
    if g :| DeletedSnap(s, s', d, name, g) {
      DeleteSnapSpares(s.pool, d, g);
      DeleteSnapBlocks(s.pool, d, g);
    }
  }

  method DeleteOneSnapshot(nas: Client, d: string, name: string, ghost g: nat)
    requires Wf(nas.st.pool) && NoneProtectedOn(nas.st.pool, d) && Uncloned(nas.st.pool, d, name)
    modifies nas`st, nas`faults
    ensures nas.st == old(nas.st).(pool := nas.st.pool) && nas.faults == Tail(old(nas.faults))
    ensures Spares(old(nas.st).pool, nas.st.pool, d) && nas.st.pool.Keys == old(nas.st).pool.Keys
    ensures Blocked(nas.st.pool, d) <==> Blocked(old(nas.st).pool, d)
    ensures nas.st == old(nas.st) || exists h :: DeletedSnap(old(nas.st), nas.st, d, name, h)
    ensures Head(old(nas.faults)).Fine? && IsSnap(old(nas.st).pool, d, name, g) ==>
      nas.st.pool == DeleteSnap(old(nas.st).pool, d, g)
  {
    ghost var s := nas.st;
    var r := nas.DeleteSnapshot(d, name);
    DeletedSpares(s, nas.st, d, name);
    if r.Ok? { DeletedIs(s, nas.st, d, name, g); }
  }

  lemma DeletedIs(s: Store, s': Store, d: string, name: string, g: nat)
    requires Wf(s.pool) && exists h :: DeletedSnap(s, s', d, name, h)
    ensures IsSnap(s.pool, d, name, g) ==> s'.pool == DeleteSnap(s.pool, d, g)
  {
    var h :| DeletedSnap(s, s', d, name, h);
    if IsSnap(s.pool, d, name, g) {
      var t :| t in s.pool[d].snaps && t.name == name && t.guid == g;
      var u :| u in s.pool[d].snaps && u.name == name && u.guid == h;
      SameName(s.pool, d, t, u);
    }
  }

  lemma DeleteSnapKeeps(z: Pool, d: string, g: nat, name: string, h: nat)
    requires IsSnap(z, d, name, h) && h != g
    ensures IsSnap(DeleteSnap(z, d, g), d, name, h)
  {
    var s :| s in z[d].snaps && s.name == name && s.guid == h;
    if IsOrigin(z, g) {
      var i :| 0 <= i < |z[d].snaps| && z[d].snaps[i] == s;
      assert DeleteSnap(z, d, g)[d].snaps[i] == s;
    } else {
      assert s in DeleteSnap(z, d, g)[d].snaps;
    }
  }

  lemma InfoIsSnap(z: Pool, d: string, infos: seq<SnapInfo>, k: nat)
    requires d in z && SnapsListed(z, d, infos) && k < |infos|
    ensures IsSnap(z, d, infos[k].name, infos[k].guid)
    ensures Wf(z) ==> forall j :: 0 <= j < k ==> infos[j].guid != infos[k].guid
  {
    assert z[d].snaps[k] in z[d].snaps;
    assert Wf(z) ==> DistinctSnaps(z[d].snaps);
  }

  lemma DeleteSnapHolds(z: Pool, d: string, g: nat, h: nat)
    requires d in z
    ensures Holds(DeleteSnap(z, d, g), d, h) ==> Holds(z, d, h)
    ensures !IsOrigin(z, g) ==> !Holds(DeleteSnap(z, d, g), d, g)
    ensures IsOrigin(DeleteSnap(z, d, g), h) <==> IsOrigin(z, h)
  {
    var z' := DeleteSnap(z, d, g);
    assert forall c :: c in z ==> z'[c].origin == z[c].origin;
    if s :| s in z'[d].snaps && s.guid == h {
      if IsOrigin(z, g) {
        var i :| 0 <= i < |z'[d].snaps| && z'[d].snaps[i] == s;
        assert z[d].snaps[i] in z[d].snaps;
      }
    }
  }

  predicate Sweepable(info: SnapInfo) { !info.hasSnapshotId && info.clones == [] }

  // z is z0 after the first n listed snapshots have been cleaned up without failures.
  ghost predicate Sweeping(z0: Pool, d: string, infos: seq<SnapInfo>, n: nat, z: Pool) {
    && d in z && n <= |infos|
    && (forall k :: n <= k < |infos| ==> IsSnap(z, d, infos[k].name, infos[k].guid))
    && (forall k :: 0 <= k < n && Sweepable(infos[k]) && !IsOrigin(z0, infos[k].guid) ==> !Holds(z, d, infos[k].guid))
    && (forall h :: IsOrigin(z, h) <==> IsOrigin(z0, h))
  }

  lemma SweepStarts(z: Pool, d: string, infos: seq<SnapInfo>)
    requires d in z && SnapsListed(z, d, infos)
    ensures Sweeping(z, d, infos, 0, z)
  {
    forall k | 0 <= k < |infos| ensures IsSnap(z, d, infos[k].name, infos[k].guid) { InfoIsSnap(z, d, infos, k); }
  }

  lemma SweepListed(z0: Pool, d: string, infos: seq<SnapInfo>, n: nat, z: Pool, k: nat)
    requires Wf(z0) && d in z0 && SnapsListed(z0, d, infos) && n < k < |infos| && Sweeping(z0, d, infos, n, z)
    ensures IsSnap(DeleteSnap(z, d, infos[n].guid), d, infos[k].name, infos[k].guid)
  {
    InfoIsSnap(z0, d, infos, k);
    DeleteSnapKeeps(z, d, infos[n].guid, infos[k].name, infos[k].guid);
  }

  lemma SweepGone(z0: Pool, d: string, infos: seq<SnapInfo>, n: nat, z: Pool, k: nat)
    requires n < |infos| && k <= n && Sweeping(z0, d, infos, n, z)
    requires Sweepable(infos[k]) && !IsOrigin(z0, infos[k].guid)
    ensures !Holds(DeleteSnap(z, d, infos[n].guid), d, infos[k].guid)
  {
    DeleteSnapHolds(z, d, infos[n].guid, infos[k].guid);
  }

  lemma SweepDelete(z0: Pool, d: string, infos: seq<SnapInfo>, n: nat, z: Pool)
    requires Wf(z0) && d in z0 && SnapsListed(z0, d, infos) && n < |infos| && Sweeping(z0, d, infos, n, z)
    ensures Sweeping(z0, d, infos, n + 1, DeleteSnap(z, d, infos[n].guid))
  {
    var z' := DeleteSnap(z, d, infos[n].guid);
    forall k | n + 1 <= k < |infos| ensures IsSnap(z', d, infos[k].name, infos[k].guid) {
      SweepListed(z0, d, infos, n, z, k);
    }
    forall k | 0 <= k < n + 1 && Sweepable(infos[k]) && !IsOrigin(z0, infos[k].guid)
      ensures !Holds(z', d, infos[k].guid)
    {
      SweepGone(z0, d, infos, n, z, k);
    }
    forall h: nat ensures IsOrigin(z', h) <==> IsOrigin(z0, h) { DeleteSnapHolds(z, d, infos[n].guid, h); }
  }

  // Every snapshot of d that CSI does not own and no clone depends on is gone.
  ghost predicate Swept(z: Pool, z': Pool, d: string) {
    d in z ==> forall t :: t in z[d].snaps && !t.csi && !IsOrigin(z, t.guid) ==> !Holds(z', d, t.guid)
  }

  lemma NoCloneListed(z: Pool, i: SnapInfo)
    requires ClonesListed(z, i) && !IsOrigin(z, i.guid)
    ensures i.clones == []
  {
    if i.clones != [] { HasMember(i.clones); }
  }

  lemma HasMember(xs: seq<string>)
    requires xs != []
    ensures exists x :: x in xs
  {
    assert xs[0] in xs;
  }

  lemma SweepEnds(z0: Pool, d: string, infos: seq<SnapInfo>, z: Pool)
    requires d in z0 && SnapsListed(z0, d, infos) && Sweeping(z0, d, infos, |infos|, z)
    ensures Swept(z0, z, d)
  {
    forall t | t in z0[d].snaps && !t.csi && !IsOrigin(z0, t.guid) ensures !Holds(z, d, t.guid) {
      var k :| 0 <= k < |z0[d].snaps| && z0[d].snaps[k] == t;
      NoCloneListed(z0, infos[k]);
    }
  }

  // On d only snapshots that CSI does not own and that have no clone are gone, none has
  // changed, and none has become a clone's origin or ceased to be one.
  ghost predicate Sweeps(z0: Pool, z: Pool, d: string) {
    && (d in z0 <==> d in z)
    && (forall h :: IsOrigin(z, h) <==> IsOrigin(z0, h))
    && (d in z0 ==>
          && (forall t :: t in z[d].snaps ==> t in z0[d].snaps)
          && (forall t :: t in z0[d].snaps && (t.csi || IsOrigin(z0, t.guid)) ==> t in z[d].snaps))
  }

  // A listed snapshot that may be swept has no clone, and no other has its name.
  lemma SweepableIs(z0: Pool, z: Pool, d: string, infos: seq<SnapInfo>, i: nat, g: nat)
    requires Wf(z0) && d in z0 && SnapsListed(z0, d, infos) && i < |infos| && Sweepable(infos[i])
    requires Sweeps(z0, z, d) && IsSnap(z, d, infos[i].name, g)
    ensures !IsOrigin(z, g) && z0[d].snaps[i].guid == g && !z0[d].snaps[i].csi
  {
    var u :| u in z[d].snaps && u.name == infos[i].name && u.guid == g;
    SameName(z0, d, u, z0[d].snaps[i]);
    if c :| c in z0 && z0[c].origin == Some(g) { assert c in infos[i].clones; }
  }

  lemma SweepUncloned(z0: Pool, z: Pool, d: string, infos: seq<SnapInfo>, i: nat)
    requires Wf(z0) && d in z0 && SnapsListed(z0, d, infos) && i < |infos| && Sweepable(infos[i])
    requires Sweeps(z0, z, d)
    ensures Uncloned(z, d, infos[i].name)
  {
    forall g | IsSnap(z, d, infos[i].name, g) ensures !IsOrigin(z, g) { SweepableIs(z0, z, d, infos, i, g); }
  }

  lemma SweepsOne(z0: Pool, z: Pool, d: string, infos: seq<SnapInfo>, i: nat, g: nat)
    requires Wf(z0) && d in z0 && SnapsListed(z0, d, infos) && i < |infos| && Sweepable(infos[i])
    requires Sweeps(z0, z, d) && IsSnap(z, d, infos[i].name, g)
    ensures Sweeps(z0, DeleteSnap(z, d, g), d)
  {
    SweepableIs(z0, z, d, infos, i, g);
    forall h ensures IsOrigin(DeleteSnap(z, d, g), h) <==> IsOrigin(z0, h) { DeleteSnapHolds(z, d, g, h); }
    forall t | t in z0[d].snaps && (t.csi || IsOrigin(z0, t.guid)) ensures t.guid != g {
      SameIfSameGuid(z0, d, d, t, z0[d].snaps[i]);
    }
  }

  // Delete the snapshots of d that CSI does not own and that no clone depends on; failures
  // are passed over.
  method DeleteDatasetSnapshots(nas: Client, d: string)
    requires Wf(nas.st.pool) && NoneProtectedOn(nas.st.pool, d)
    modifies nas`st, nas`faults
    ensures nas.st == old(nas.st).(pool := nas.st.pool) && Pending(nas.faults) <= Pending(old(nas.faults))
    ensures Spares(old(nas.st).pool, nas.st.pool, d) && nas.st.pool.Keys == old(nas.st).pool.Keys
    ensures Blocked(nas.st.pool, d) <==> Blocked(old(nas.st).pool, d)
    ensures Sweeps(old(nas.st).pool, nas.st.pool, d)
    ensures Pending(old(nas.faults)) == 0 ==> Swept(old(nas.st).pool, nas.st.pool, d)
  {
    ghost var z0 := nas.st.pool;
    var q := nas.QuerySnapshots(d);
    SparesSelf(z0, d);
    if q.Err? || q.value == [] { return; }
    DeleteListed(nas, d, q.value);
    if Pending(old(nas.faults)) == 0 { SweepEnds(z0, d, q.value, nas.st.pool); }
  }

  // A listed snapshot that is not skipped.
  method DeleteSwept(nas: Client, d: string, infos: seq<SnapInfo>, i: nat, ghost z0: Pool)
    requires Wf(nas.st.pool) && NoneProtectedOn(nas.st.pool, d) && i < |infos| && Sweepable(infos[i])
    requires Wf(z0) && d in z0 && SnapsListed(z0, d, infos) && Sweeps(z0, nas.st.pool, d)
    modifies nas`st, nas`faults
    ensures nas.st == old(nas.st).(pool := nas.st.pool) && nas.faults == Tail(old(nas.faults))
    ensures Spares(old(nas.st).pool, nas.st.pool, d) && nas.st.pool.Keys == old(nas.st).pool.Keys
    ensures Blocked(nas.st.pool, d) <==> Blocked(old(nas.st).pool, d)
    ensures Sweeps(z0, nas.st.pool, d)
    ensures Head(old(nas.faults)).Fine? && IsSnap(old(nas.st).pool, d, infos[i].name, infos[i].guid) ==>
      nas.st.pool == DeleteSnap(old(nas.st).pool, d, infos[i].guid)
  {
    SweepUncloned(z0, nas.st.pool, d, infos, i);
    ghost var s := nas.st;
    DeleteOneSnapshot(nas, d, infos[i].name, infos[i].guid);
    if h :| DeletedSnap(s, nas.st, d, infos[i].name, h) { SweepsOne(z0, s.pool, d, infos, i, h); }
  }

  // One listed snapshot: skipped, or deleted.
  method CleanOne(nas: Client, d: string, infos: seq<SnapInfo>, i: nat, ghost z0: Pool)
    requires Wf(nas.st.pool) && NoneProtectedOn(nas.st.pool, d) && i < |infos|
    requires Wf(z0) && d in z0 && SnapsListed(z0, d, infos) && Sweeps(z0, nas.st.pool, d)
    modifies nas`st, nas`faults
    ensures Sweeps(z0, nas.st.pool, d)
    ensures nas.st == old(nas.st).(pool := nas.st.pool) && Pending(nas.faults) <= Pending(old(nas.faults))
    ensures Spares(old(nas.st).pool, nas.st.pool, d) && nas.st.pool.Keys == old(nas.st).pool.Keys
    ensures Blocked(nas.st.pool, d) <==> Blocked(old(nas.st).pool, d)
    ensures Pending(old(nas.faults)) == 0 && Sweeping(z0, d, infos, i, old(nas.st).pool) ==>
      Sweeping(z0, d, infos, i + 1, nas.st.pool)
  {
    ghost var z := nas.st.pool;
    SparesSelf(z, d);
    if infos[i].hasSnapshotId || infos[i].clones != [] {
      SweepSkip(z0, d, infos, i, z);
      return;
    }
    if Sweeping(z0, d, infos, i, z) { SweepingHas(z0, d, infos, i, z); }
    DeleteSwept(nas, d, infos, i, z0);
    if d in z && nas.st.pool == DeleteSnap(z, d, infos[i].guid) && Sweeping(z0, d, infos, i, z) {
      SweepDelete(z0, d, infos, i, z);
    }
  }

  lemma SweepSkip(z0: Pool, d: string, infos: seq<SnapInfo>, i: nat, z: Pool)
    requires i < |infos| && !Sweepable(infos[i])
    ensures Sweeping(z0, d, infos, i, z) ==> Sweeping(z0, d, infos, i + 1, z)
  {
  }

  lemma SweepingHas(z0: Pool, d: string, infos: seq<SnapInfo>, i: nat, z: Pool)
    requires i < |infos| && Sweeping(z0, d, infos, i, z)
    ensures IsSnap(z, d, infos[i].name, infos[i].guid)
  {
  }

  method DeleteListed(nas: Client, d: string, infos: seq<SnapInfo>)
    requires Wf(nas.st.pool) && NoneProtectedOn(nas.st.pool, d) && SnapsListed(nas.st.pool, d, infos)
      && d in nas.st.pool
    modifies nas`st, nas`faults
    ensures nas.st == old(nas.st).(pool := nas.st.pool) && Pending(nas.faults) <= Pending(old(nas.faults))
    ensures Spares(old(nas.st).pool, nas.st.pool, d) && nas.st.pool.Keys == old(nas.st).pool.Keys
    ensures Blocked(nas.st.pool, d) <==> Blocked(old(nas.st).pool, d)
    ensures Sweeps(old(nas.st).pool, nas.st.pool, d)
    ensures Pending(old(nas.faults)) == 0 ==> Sweeping(old(nas.st).pool, d, infos, |infos|, nas.st.pool)
  {
    ghost var z0 := nas.st.pool;
    SparesSelf(z0, d);
    SweepStarts(z0, d, infos);
    for i := 0 to |infos|
      invariant nas.st == old(nas.st).(pool := nas.st.pool) && Pending(nas.faults) <= Pending(old(nas.faults))
      invariant Spares(z0, nas.st.pool, d) && nas.st.pool.Keys == z0.Keys && Sweeps(z0, nas.st.pool, d)
      invariant Blocked(nas.st.pool, d) <==> Blocked(z0, d)
      invariant Pending(old(nas.faults)) == 0 ==> Sweeping(z0, d, infos, i, nas.st.pool)
    {
      ghost var z := nas.st.pool;
      CleanOne(nas, d, infos, i, z0);
      SparesTrans(z0, z, nas.st.pool, d);
    }
  }

  method DeleteOnce(nas: Client, d: string) returns (r: Result<()>)
    requires Wf(nas.st.pool) && NoneProtectedOn(nas.st.pool, d)
    modifies nas`st, nas`faults
    ensures nas.st == old(nas.st).(pool := nas.st.pool)
    ensures Spares(old(nas.st).pool, nas.st.pool, d)
    ensures r.Ok? || r == Err(NotFound) ==> d !in nas.st.pool
    ensures Pending(nas.faults) <= Pending(old(nas.faults)) && nas.faults == Tail(old(nas.faults))
    ensures r.Err? && r.error != NotFound ==>
      (r.error == DependentClones && Blocked(old(nas.st).pool, d) && !Head(old(nas.faults)).Lost?)
      || (r.error == Unavailable && !Head(old(nas.faults)).Fine?)
    ensures Blocked(old(nas.st).pool, d) && !Head(old(nas.faults)).Lost? ==> r == Err(DependentClones)
    ensures !Blocked(old(nas.st).pool, d) ==>
      !Blocked(nas.st.pool, d)
      && (r.Err? && r.error != NotFound ==> r.error == Unavailable && !Head(old(nas.faults)).Fine?)
    ensures Blocked(old(nas.st).pool, d) ==> r.Err? && r.error != NotFound && nas.st == old(nas.st)
    ensures Head(old(nas.faults)).Fine? && d !in old(nas.st).pool ==> r == Err(NotFound)
    ensures CanDestroy(old(nas.st).pool, d) ==>
      if Head(old(nas.faults)).Fine? then r.Ok? && nas.st.pool == Destroy(old(nas.st).pool, d)
      else r == Err(Unavailable)
  {
    ghost var z := nas.st.pool;
    if CanDestroy(z, d) { DestroySpares(z, d); DestroyKeepsWf(z, d); }
    r := nas.DeleteDataset(d);
  }

  // What stands in the way of a delete that began with schedule f: a clone of d, or a call failed.
  ghost predicate Leftover(e: Error, z: Pool, d: string, f: Schedule) {
    if e == DependentClones then Blocked(z, d) else e == Unavailable && Pending(f) > 0
  }

  // retry.DeletionConfig: at most 12 attempts. Which failures count as retryable is the
  // error text's matter, so either may happen; a vanished dataset counts as deleted.
  method DeleteWithRetry(nas: Client, d: string) returns (r: Result<()>)
    requires Wf(nas.st.pool) && NoneProtectedOn(nas.st.pool, d)
    modifies nas`st, nas`faults
    ensures nas.st == old(nas.st).(pool := nas.st.pool)
    ensures Spares(old(nas.st).pool, nas.st.pool, d)
    ensures r.Ok? ==> d !in nas.st.pool
    ensures Blocked(old(nas.st).pool, d) ==> r.Err? && nas.st == old(nas.st)
    ensures CanDestroy(old(nas.st).pool, d) && Head(old(nas.faults)).Fine? ==> r.Ok?
    ensures r.Err? ==> Leftover(r.error, nas.st.pool, d, old(nas.faults))
    ensures !Blocked(old(nas.st).pool, d) && nas.Patient() && Pending(old(nas.faults)) <= 11 ==> r.Ok?
  {
    r := Err(Internal);
    for attempt := 1 to 13
      invariant nas.st == old(nas.st).(pool := nas.st.pool)
      invariant Spares(old(nas.st).pool, nas.st.pool, d)
      invariant Blocked(old(nas.st).pool, d) ==> nas.st == old(nas.st)
      invariant r.Err? && Pending(nas.faults) <= Pending(old(nas.faults))
      invariant attempt > 1 ==> (r.error == DependentClones && Blocked(nas.st.pool, d)) || r.error == Unavailable
      invariant r == Err(Unavailable) ==> Pending(nas.faults) < Pending(old(nas.faults))
      invariant CanDestroy(old(nas.st).pool, d) && Head(old(nas.faults)).Fine? ==>
        attempt == 1 && nas.st == old(nas.st) && nas.faults == old(nas.faults)
      invariant !Blocked(old(nas.st).pool, d) ==>
        !Blocked(nas.st.pool, d) && Pending(nas.faults) + attempt - 1 <= Pending(old(nas.faults))
    {
      ghost var z := nas.st.pool;
      var began := nas.faults;
      var once := DeleteOnce(nas, d);
      SparesTrans(old(nas.st).pool, z, nas.st.pool, d);
      if once.Ok? || once.error == NotFound { return Ok(()); }
      r := once;
      if !nas.transient(began) { return; }
    }
  }

  // The error of the original delete stands unless promotion made the retry succeed. When
  // the newest snapshot with a clone was deferred and no promote failed, nothing but a
  // failure of the retried delete itself keeps d; when it was not, d stays blocked.
  method TryPromoteAndDelete(nas: Client, d: string) returns (r: Result<()>, ghost clean: bool)
    requires Wf(nas.st.pool) && NoneProtectedOn(nas.st.pool, d)
    modifies nas`st, nas`faults
    ensures nas.st == old(nas.st).(pool := nas.st.pool)
    ensures Spares(old(nas.st).pool, nas.st.pool, d)
    ensures r.Ok? ==> d !in nas.st.pool
    ensures Stuck(old(nas.st).pool, d) ==> r.Err? && Blocked(nas.st.pool, d)
    ensures Pending(nas.faults) <= Pending(old(nas.faults))
    ensures clean && NewestDeferred(old(nas.st).pool, d) && Blocked(old(nas.st).pool, d) ==>
      r.Ok? || r == Err(Unavailable)
    ensures Pending(old(nas.faults)) == 0 && Removable(old(nas.st).pool, d) && Blocked(old(nas.st).pool, d) ==> r.Ok?
  {
    ghost var z := nas.st.pool;
    var promoted, all := PromoteClonesOfDeferred(nas, d);
    clean := all;
    ghost var z' := nas.st.pool;
    PromotedSpares(z, z', d);
    if d in z && clean { CanDestroyIffNewestDeferred(z, d, z'); }
    if Stuck(z, d) { OthersStayBlocked(z, d, z'); }
    if !promoted { return Err(FailedPrecondition), clean; }
    r := DeleteOnce(nas, d);
    SparesTrans(z, z', nas.st.pool, d);
    if r == Err(NotFound) { r := Ok(()); }
  }

  // What the deletion of ZVOL d achieves. Whatever fails, d stays if the newest snapshot with
  // a clone is not deferred; without faults and clashing names it goes exactly otherwise. If
  // nothing blocks it the retries get over twelve passing failures.
  ghost predicate DestroysUnlessBlocked(z: Pool, z': Pool, d: string, f: Schedule, patient: bool, r: Result<()>) {
    && (r.Ok? ==> d !in z')
    && (Stuck(z, d) ==> r.Err? && Stuck(z', d))
    && (CanDestroy(z, d) && Head(f).Fine? ==> r.Ok? && z' == Destroy(z, d))
    && (!Blocked(z, d) && patient && Pending(f) <= 12 ==> r.Ok?)
    && (NoClashes(z, d) && Pending(f) == 0 ==> (r.Ok? <==> d !in z || NewestDeferred(z, d)))
  }

  // Step 2 of deleteISCSIVolume.
  method DestroyIscsiZvol(nas: Client, d: string) returns (r: Result<()>)
    requires Wf(nas.st.pool) && NoneProtectedOn(nas.st.pool, d)
    modifies nas`st, nas`faults
    ensures nas.st == old(nas.st).(pool := nas.st.pool)
    ensures Spares(old(nas.st).pool, nas.st.pool, d)
    ensures DestroysUnlessBlocked(old(nas.st).pool, nas.st.pool, d, old(nas.faults), nas.Patient(), r)
    ensures r.Err? ==>
      if Blocked(old(nas.st).pool, d) && !Head(old(nas.faults)).Lost? then r.error == FailedPrecondition
      else r.error == Internal && Pending(old(nas.faults)) > 0
  {
    ghost var z := nas.st.pool;
    StuckIsBlocked(z, d);
    var first := DeleteOnce(nas, d);
    if first.Ok? || first.error == NotFound { return Ok(()); }
    ghost var z1 := nas.st.pool;
    if first.error == DependentClones {
      var resolved, clean := TryPromoteAndDelete(nas, d);
      SparesTrans(z, z1, nas.st.pool, d);
      return if resolved.Ok? then Ok(()) else Err(FailedPrecondition);
    }
    r := CleanAndRetry(nas, d);
    SparesTrans(z, z1, nas.st.pool, d);
    if r.Err? { r := Err(Internal); }
  }

  // An unresolved clone dependency still goes through the snapshot cleanup and the retry.
  method PromoteOrClean(nas: Client, d: string) returns (r: Result<()>)
    requires Wf(nas.st.pool) && NoneProtectedOn(nas.st.pool, d)
    modifies nas`st, nas`faults
    ensures nas.st == old(nas.st).(pool := nas.st.pool)
    ensures Spares(old(nas.st).pool, nas.st.pool, d)
    ensures r.Ok? ==> d !in nas.st.pool
    ensures Stuck(old(nas.st).pool, d) ==> r.Err? && d in nas.st.pool
    ensures Pending(old(nas.faults)) == 0 && Removable(old(nas.st).pool, d) && Blocked(old(nas.st).pool, d) ==> r.Ok?
    ensures r.Err? ==> Leftover(r.error, nas.st.pool, d, old(nas.faults))
  {
    ghost var z := nas.st.pool;
    var resolved, clean := TryPromoteAndDelete(nas, d);
    if resolved.Ok? { return Ok(()); }
    ghost var z1 := nas.st.pool;
    r := CleanAndRetry(nas, d);
    SparesTrans(z, z1, nas.st.pool, d);
  }

  // deleteZVOL.
  method DeleteZvol(nas: Client, d: string) returns (r: Result<()>)
    requires Wf(nas.st.pool) && NoneProtectedOn(nas.st.pool, d)
    modifies nas`st, nas`faults
    ensures nas.st == old(nas.st).(pool := nas.st.pool)
    ensures Spares(old(nas.st).pool, nas.st.pool, d)
    ensures DestroysUnlessBlocked(old(nas.st).pool, nas.st.pool, d, old(nas.faults), nas.Patient(), r)
    ensures r.Err? ==> Leftover(r.error, nas.st.pool, d, old(nas.faults))
  {
    ghost var z := nas.st.pool;
    StuckIsBlocked(z, d);
    var first := DeleteOnce(nas, d);
    if first.Ok? || first.error == NotFound { return Ok(()); }
    ghost var z1 := nas.st.pool;
    if first.error == DependentClones { r := PromoteOrClean(nas, d); } else { r := CleanAndRetry(nas, d); }
    SparesTrans(z, z1, nas.st.pool, d);
  }

  // The NVMe-oF path; what is left of a clone dependency is reported as one.
  method DestroyNvmeZvol(nas: Client, d: string) returns (r: Result<()>)
    requires Wf(nas.st.pool) && NoneProtectedOn(nas.st.pool, d)
    modifies nas`st, nas`faults
    ensures nas.st == old(nas.st).(pool := nas.st.pool)
    ensures Spares(old(nas.st).pool, nas.st.pool, d)
    ensures DestroysUnlessBlocked(old(nas.st).pool, nas.st.pool, d, old(nas.faults), nas.Patient(), r)
    ensures r.Err? ==> if r.error == FailedPrecondition then Blocked(nas.st.pool, d)
                       else r.error == Internal && Pending(old(nas.faults)) > 0
  {
    r := DeleteZvol(nas, d);
    if r.Err? { r := Err(if r.error == DependentClones then FailedPrecondition else Internal); }
  }

  // What promotion cannot clear is blocked to begin with.
  lemma StuckIsBlocked(z: Pool, d: string)
    ensures Stuck(z, d) ==> Blocked(z, d)
  {
  }

  method CleanAndRetry(nas: Client, d: string) returns (r: Result<()>)
    requires Wf(nas.st.pool) && NoneProtectedOn(nas.st.pool, d)
    modifies nas`st, nas`faults
    ensures nas.st == old(nas.st).(pool := nas.st.pool)
    ensures Spares(old(nas.st).pool, nas.st.pool, d)
    ensures r.Ok? ==> d !in nas.st.pool
    ensures Blocked(old(nas.st).pool, d) ==> r.Err? && d in nas.st.pool
    ensures r.Err? ==> Leftover(r.error, nas.st.pool, d, old(nas.faults))
    ensures !Blocked(old(nas.st).pool, d) && nas.Patient() && Pending(old(nas.faults)) <= 11 ==> r.Ok?
  {
    ghost var z := nas.st.pool;
    DeleteDatasetSnapshots(nas, d);
    ghost var z1 := nas.st.pool;
    r := DeleteWithRetry(nas, d);
    SparesTrans(z, z1, nas.st.pool, d);
  }
}
