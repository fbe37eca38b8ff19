// The ZFS state the driver acts on: datasets, their snapshots in creation order,
// deferred destruction and clone origins, with promote, destroy and snapshot deletion.
module Zfs {
  import opened Results

  // The user properties of a volume that the driver reads back; iqn holds the NQN of an
  // NVMe-oF volume. None is an absent property;
  // Some(0) is an identifier that was cleared after its object was deleted.
  datatype Props = Props(
    managedBy: Option<string>,
    volume: Option<string>,
    strategy: string,
    targetId: Option<int>,
    extentId: Option<int>,
    iqn: string,
    subsystemId: Option<int>,
    namespaceId: Option<int>)

  // guid identifies a snapshot for its whole life, wherever a promote moves it.
  // csi: the snapshot carries tns-csi:snapshot_id.  deferred: defer_destroy is on.
  datatype Snap = Snap(guid: nat, name: string, csi: bool, deferred: bool)

  // origin is the snapshot a clone was made from.
  datatype Dataset = Dataset(volsize: int, props: Props, origin: Option<nat>, snaps: seq<Snap>)

  type Pool = map<string, Dataset>

  // ---------------------------------------------------------------- Well-formedness

  ghost predicate DistinctSnaps(snaps: seq<Snap>) {
    forall i, j :: 0 <= i < j < |snaps| ==> snaps[i].guid != snaps[j].guid && snaps[i].name != snaps[j].name
  }

  // Snapshot g of dataset d.
  ghost predicate Holds(z: Pool, d: string, g: nat) {
    d in z && exists s :: s in z[d].snaps && s.guid == g
  }

  // Snapshot g exists somewhere in the pool.
  ghost predicate Alive(z: Pool, g: nat) {
    exists d :: Holds(z, d, g)
  }

  ghost predicate OneOwner(z: Pool) {
    forall d, e, g :: Holds(z, d, g) && Holds(z, e, g) ==> d == e
  }

  ghost predicate OriginsExist(z: Pool) {
    forall c {:trigger z[c].origin} :: c in z && z[c].origin.Some? ==> Alive(z, z[c].origin.value)
  }

  // c is a clone of a snapshot of d.
  ghost predicate ClonedFrom(z: Pool, c: string, d: string) {
    c in z && z[c].origin.Some? && Holds(z, d, z[c].origin.value)
  }

  ghost predicate Ranked(z: Pool, rank: map<string, nat>) {
    && z.Keys <= rank.Keys
    && forall c, d :: ClonedFrom(z, c, d) ==> d in rank && c in rank && rank[d] < rank[c]
  }

  // No dataset descends from itself: some ranking decreases along every origin.
  ghost predicate Acyclic(z: Pool) {
    exists rank :: Ranked(z, rank)
  }

  ghost predicate Wf(z: Pool) {
    && (forall d :: d in z ==> DistinctSnaps(z[d].snaps))
    && OneOwner(z)
    && OriginsExist(z)
    && Acyclic(z)
  }

  lemma SameSnap(z: Pool, d: string, e: string, s: Snap, t: Snap)
    requires Wf(z) && d in z && e in z && s in z[d].snaps && t in z[e].snaps && s.guid == t.guid
    ensures d == e && s == t
  {
    assert Holds(z, d, s.guid) && Holds(z, e, s.guid);
    var i, j :| 0 <= i < |z[d].snaps| && 0 <= j < |z[d].snaps| && z[d].snaps[i] == s && z[d].snaps[j] == t;
  }

  lemma SameIfSameGuid(z: Pool, d: string, e: string, s: Snap, t: Snap)
    requires Wf(z) && d in z && e in z && s in z[d].snaps && t in z[e].snaps
    ensures s.guid == t.guid ==> d == e && s == t
  {
    if s.guid == t.guid { SameSnap(z, d, e, s, t); }
  }

  lemma SameName(z: Pool, d: string, s: Snap, t: Snap)
    requires Wf(z) && d in z && s in z[d].snaps && t in z[d].snaps
    ensures s.name == t.name ==> s == t
  {
    var i, j :| 0 <= i < |z[d].snaps| && 0 <= j < |z[d].snaps| && z[d].snaps[i] == s && z[d].snaps[j] == t;
  }

  predicate IsOrigin(z: Pool, g: nat) {
    exists c :: c in z && z[c].origin == Some(g)
  }

  // ---------------------------------------------------------------- Promote

  // Position of snapshot g in snaps.
  function IndexOf(snaps: seq<Snap>, g: nat): (k: nat)
    requires exists s :: s in snaps && s.guid == g
    ensures k < |snaps| && snaps[k].guid == g
    ensures forall j :: 0 <= j < k ==> snaps[j].guid != g
  {
    if snaps[0].guid == g then 0
    else
      assert forall s :: s in snaps && s.guid == g ==> s in snaps[1..];
      1 + IndexOf(snaps[1..], g)
  }

  ghost function Owner(z: Pool, g: nat): (d: string)
    requires Alive(z, g)
    ensures Holds(z, d, g)
  {
    var d :| Holds(z, d, g); d
  }

  predicate NameClash(xs: seq<Snap>, ys: seq<Snap>) {
    exists x, y :: x in xs && y in ys && x.name == y.name
  }

  // zfs promote refuses a dataset that is not a clone, and a clone that already has a
  // snapshot named like one it would receive.
  ghost predicate CanPromote(z: Pool, c: string) {
    && c in z && z[c].origin.Some?
    && Alive(z, z[c].origin.value)
    && var p := Owner(z, z[c].origin.value);
       var k := IndexOf(z[p].snaps, z[c].origin.value);
       p != c && !NameClash(z[p].snaps[..k + 1], z[c].snaps)
  }

  // The origin snapshot (number k of p) and every older one move to the clone c, c inherits
  // p's origin, and p becomes a clone of the moved snapshot.
  function MoveOrigin(z: Pool, c: string, p: string, k: nat): Pool
    requires c in z && p in z && k < |z[p].snaps|
  {
    z[p := z[p].(origin := Some(z[p].snaps[k].guid), snaps := z[p].snaps[k + 1..])]
     [c := z[c].(origin := z[p].origin, snaps := z[p].snaps[..k + 1] + z[c].snaps)]
  }

  ghost function Promote(z: Pool, c: string): Pool
    requires CanPromote(z, c)
  {
    var p := Owner(z, z[c].origin.value);
    MoveOrigin(z, c, p, IndexOf(z[p].snaps, z[c].origin.value))
  }

  // The snapshots a promote of c moves.
  ghost function Moved(z: Pool, c: string): seq<Snap>
    requires CanPromote(z, c)
  {
    var p := Owner(z, z[c].origin.value);
    z[p].snaps[..IndexOf(z[p].snaps, z[c].origin.value) + 1]
  }

  // A promote changes the clone and the owner of its origin, and exchanges their origins.
  lemma PromoteOrigins(z: Pool, c: string, x: string)
    requires CanPromote(z, c) && x in z
    ensures var p := Owner(z, z[c].origin.value);
      && x in Promote(z, c)
      && (x != c && x != p ==> Promote(z, c)[x] == z[x])
      && (x == c ==> Promote(z, c)[x].origin == z[p].origin)
      && (x == p ==> Promote(z, c)[x].origin == z[c].origin)
  {
  }

  // Where every snapshot is after a promote: the moved ones on c, all others where they were.
  lemma PromotePlaces(z: Pool, c: string, d: string, s: Snap)
    requires Wf(z) && CanPromote(z, c) && d in z
    ensures Promote(z, c).Keys == z.Keys
    ensures s in Promote(z, c)[d].snaps <==>
            if s in Moved(z, c) then d == c else s in z[d].snaps
  {
    var p := Owner(z, z[c].origin.value);
    var k := IndexOf(z[p].snaps, z[c].origin.value);
    var z' := Promote(z, c);
    assert z[p].snaps == z[p].snaps[..k + 1] + z[p].snaps[k + 1..];
    if s in Moved(z, c) && s in z'[d].snaps {
      assert s in z[p].snaps;
      if s in z[d].snaps { SameSnap(z, d, p, s, s); }
    }
  }

  lemma PromoteHolds(z: Pool, c: string, d: string, g: nat)
    requires Wf(z) && CanPromote(z, c)
    ensures Holds(Promote(z, c), d, g) <==>
            if exists s :: s in Moved(z, c) && s.guid == g then d == c else Holds(z, d, g)
  {
    var z' := Promote(z, c);
    var p := Owner(z, z[c].origin.value);
    if d in z {
      forall s ensures s in z'[d].snaps <==> if s in Moved(z, c) then d == c else s in z[d].snaps {
        PromotePlaces(z, c, d, s);
      }
      if exists s :: s in Moved(z, c) && s.guid == g {
        var m :| m in Moved(z, c) && m.guid == g;
        assert m in z[p].snaps && Holds(z, p, g);
        forall t | t in z'[d].snaps && t.guid == g ensures t in Moved(z, c) {
          if t in z[d].snaps { SameSnap(z, d, p, t, m); }
        }
      }
    }
  }

  lemma PromoteDistinct(z: Pool, c: string, d: string)
    requires Wf(z) && CanPromote(z, c) && d in z
    ensures d in Promote(z, c) && DistinctSnaps(Promote(z, c)[d].snaps)
  {
    var p := Owner(z, z[c].origin.value);
    var k := IndexOf(z[p].snaps, z[c].origin.value);
    if d == c {
      var moved := z[p].snaps[..k + 1];
      var snaps := moved + z[c].snaps;
      forall i, j | 0 <= i < j < |snaps|
        ensures snaps[i].guid != snaps[j].guid && snaps[i].name != snaps[j].name
      {
        if i <= k < j {
          assert snaps[i] in moved && snaps[j] in z[c].snaps;
          if snaps[i].guid == snaps[j].guid {
            assert snaps[i] in z[p].snaps;
            assert Holds(z, p, snaps[i].guid) && Holds(z, c, snaps[i].guid);
            assert false;
          }
        }
      }
    }
  }

  // The ranking that stays decreasing when c and its owner p change places.
  ghost function SwapRank(rank: map<string, nat>, c: string, p: string): map<string, nat>
    requires c in rank && p in rank
  {
    map x | x in rank :: if x == c then 2 * rank[p] else if x == p then 2 * rank[p] + 1 else 2 * rank[x]
  }

  lemma PromoteRanked(z: Pool, c: string, rank: map<string, nat>)
    requires Wf(z) && CanPromote(z, c) && Ranked(z, rank)
    ensures c in rank && Owner(z, z[c].origin.value) in rank
    ensures Ranked(Promote(z, c), SwapRank(rank, c, Owner(z, z[c].origin.value)))
  {
    var g := z[c].origin.value;
    var p := Owner(z, g);
    var z' := Promote(z, c);
    assert ClonedFrom(z, c, p);
    var rank' := SwapRank(rank, c, p);
    forall x, y | ClonedFrom(z', x, y) ensures y in rank' && x in rank' && rank'[y] < rank'[x] {
      var o := z'[x].origin.value;
      PromoteHolds(z, c, y, o);
      if x == p {
        var k := IndexOf(z[p].snaps, g);
        assert z[p].snaps[k] in Moved(z, c);
        assert y == c;
      } else if x == c {
        // c took over p's origin, which lies strictly below p and so did not move.
        assert Alive(z, o);
        var q := Owner(z, o);
        assert ClonedFrom(z, p, q);
        assert forall s :: s in Moved(z, c) && s.guid == o ==> Holds(z, p, o);
        assert y == q;
      } else {
        assert Alive(z, o);
        var q := Owner(z, o);
        assert ClonedFrom(z, x, q);
        if exists s :: s in Moved(z, c) && s.guid == o {
          var s :| s in Moved(z, c) && s.guid == o;
          assert s in z[p].snaps && Holds(z, p, o);
          assert q == p && y == c;
        } else {
          assert y == q;
        }
      }
    }
  }

  // Promotion keeps the pool well formed: every snapshot on one dataset, every origin
  // present, and no dataset descending from itself.
  lemma PromoteKeepsWf(z: Pool, c: string)
    requires Wf(z) && CanPromote(z, c)
    ensures Wf(Promote(z, c))
  {
    var z' := Promote(z, c);
    var p := Owner(z, z[c].origin.value);
    forall d | d in z' ensures DistinctSnaps(z'[d].snaps) { PromoteDistinct(z, c, d); }
    forall d, e, g | Holds(z', d, g) && Holds(z', e, g) ensures d == e {
      PromoteHolds(z, c, d, g);
      PromoteHolds(z, c, e, g);
    }
    forall x | x in z' && z'[x].origin.Some? ensures Alive(z', z'[x].origin.value) {
      var o := z'[x].origin.value;
      assert IsOrigin(z, o) by {
        if x == p { assert z[c].origin == Some(o); }
        else if x == c { assert z[p].origin == Some(o); }
        else { assert z[x].origin == Some(o); }
      }
      var y :| y in z && z[y].origin == Some(o);
      var q := Owner(z, o);
      PromoteHolds(z, c, q, o);
      PromoteHolds(z, c, c, o);
    }
    var rank :| Ranked(z, rank);
    PromoteRanked(z, c, rank);
  }

  // Promotion neither creates nor destroys a dataset or a snapshot, and makes no snapshot
  // an origin that was not one.
  lemma PromoteConserves(z: Pool, c: string)
    requires Wf(z) && CanPromote(z, c)
    ensures Promote(z, c).Keys == z.Keys
    ensures forall g :: Alive(z, g) <==> Alive(Promote(z, c), g)
    ensures forall g :: IsOrigin(Promote(z, c), g) ==> IsOrigin(z, g)
  {
    var z' := Promote(z, c);
    var p := Owner(z, z[c].origin.value);
    forall g: nat ensures Alive(z, g) <==> Alive(z', g) {
      forall d
        ensures Holds(z', d, g) <==> if exists s :: s in Moved(z, c) && s.guid == g then d == c else Holds(z, d, g)
      {
        PromoteHolds(z, c, d, g);
      }
      if exists s :: s in Moved(z, c) && s.guid == g {
        var s :| s in Moved(z, c) && s.guid == g;
        assert s in z[p].snaps && Holds(z, p, g);
        assert Holds(z', c, g);
      } else {
        assert forall d :: Holds(z', d, g) <==> Holds(z, d, g);
      }
    }
    forall g: nat | IsOrigin(z', g) ensures IsOrigin(z, g) {
      var x :| x in z' && z'[x].origin == Some(g);
      if x == p { assert z[c].origin == Some(g); }
      else if x == c { assert z[p].origin == Some(g); }
      else { assert z[x].origin == Some(g); }
    }
  }

  // ---------------------------------------------------------------- Destroy

  // A recursive destroy fails while any of the dataset's snapshots has a clone.
  ghost predicate CanDestroy(z: Pool, d: string) {
    d in z && forall s :: s in z[d].snaps ==> !IsOrigin(z, s.guid)
  }

  function Without(snaps: seq<Snap>, g: nat): (r: seq<Snap>)
    ensures forall s :: s in r <==> s in snaps && s.guid != g
  {
    if snaps == [] then []
    else if snaps[0].guid == g then Without(snaps[1..], g)
    else [snaps[0]] + Without(snaps[1..], g)
  }

  lemma {:induction false} WithoutDistinct(snaps: seq<Snap>, g: nat)
    requires DistinctSnaps(snaps)
    ensures DistinctSnaps(Without(snaps, g))
  {
    if snaps != [] {
      var tail := snaps[1..];
      assert DistinctSnaps(tail);
      WithoutDistinct(tail, g);
      var r := Without(tail, g);
      forall k | 0 <= k < |r| ensures r[k].guid != snaps[0].guid && r[k].name != snaps[0].name {
        assert r[k] in tail;
      }
      assert DistinctSnaps([snaps[0]] + r);
    }
  }

  function DropSnap(z: Pool, d: string, g: nat): Pool
    requires d in z
  {
    z[d := z[d].(snaps := Without(z[d].snaps, g))]
  }

  // ZFS removes a deferred snapshot together with its last clone.
  ghost predicate Reaps(z: Pool, d: string, q: string, g: nat) {
    && d in z && z[d].origin == Some(g)
    && q in z && q != d
    && (exists s :: s in z[q].snaps && s.guid == g && s.deferred)
    && !IsOrigin(z - {d}, g)
  }

  ghost function Destroy(z: Pool, d: string): Pool
    requires d in z
  {
    if exists q, g :: Reaps(z, d, q, g) then
      var q, g :| Reaps(z, d, q, g);
      DropSnap(z - {d}, q, g)
    else z - {d}
  }

  lemma AddKeepsWf(z: Pool, d: string, dataset: Dataset)
    requires Wf(z) && d !in z && dataset.origin.None? && dataset.snaps == []
    ensures Wf(z[d := dataset])
  {
    var z' := z[d := dataset];
    assert forall x, g :: Holds(z', x, g) ==> Holds(z, x, g);
    forall c | c in z' && z'[c].origin.Some? ensures Alive(z', z'[c].origin.value) {
      var q := Owner(z, z[c].origin.value);
      assert Holds(z', q, z[c].origin.value);
    }
    var rank :| Ranked(z, rank);
    var rank' := map x | x in rank.Keys + {d} :: if x in rank then rank[x] else 0;
    assert forall c, x :: ClonedFrom(z', c, x) ==> ClonedFrom(z, c, x);
    assert Ranked(z', rank');
  }

  // Properties play no part in well-formedness.
  lemma SetPropsKeepsWf(z: Pool, d: string, props: Props)
    requires Wf(z) && d in z
    ensures Wf(z[d := z[d].(props := props)])
  {
    var z' := z[d := z[d].(props := props)];
    assert forall x, g :: Holds(z', x, g) <==> Holds(z, x, g);
    forall c | c in z' && z'[c].origin.Some? ensures Alive(z', z'[c].origin.value) {
      assert z'[c].origin == z[c].origin;
      var q := Owner(z, z[c].origin.value);
      assert Holds(z', q, z[c].origin.value);
    }
    var rank :| Ranked(z, rank);
    assert forall c, x :: ClonedFrom(z', c, x) ==> ClonedFrom(z, c, x);
    assert Ranked(z', rank);
  }

  // Removing a dataset nobody depends on, or an origin-free snapshot, keeps the pool well formed.
  lemma RemoveKeepsWf(z: Pool, d: string)
    requires Wf(z) && CanDestroy(z, d)
    ensures Wf(z - {d})
  {
    var z' := z - {d};
    assert forall x, g :: Holds(z', x, g) ==> Holds(z, x, g);
    forall c | c in z' && z'[c].origin.Some? ensures Alive(z', z'[c].origin.value) {
      var o := z'[c].origin.value;
      var q :| Holds(z, q, o);
      if q == d { assert IsOrigin(z, o); assert false; }
      assert Holds(z', q, o);
    }
    var rank :| Ranked(z, rank);
    assert forall c, x :: ClonedFrom(z', c, x) ==> ClonedFrom(z, c, x);
    assert Ranked(z', rank);
  }

  lemma DropSnapKeepsWf(z: Pool, d: string, g: nat)
    requires Wf(z) && d in z && !IsOrigin(z, g)
    ensures Wf(DropSnap(z, d, g))
  {
    var z' := DropSnap(z, d, g);
    WithoutDistinct(z[d].snaps, g);
    assert forall x, h :: Holds(z', x, h) ==> Holds(z, x, h);
    forall c | c in z' && z'[c].origin.Some? ensures Alive(z', z'[c].origin.value) {
      var o := z'[c].origin.value;
      assert z[c].origin == Some(o);
      assert o != g;
      var q :| Holds(z, q, o);
      var s :| s in z[q].snaps && s.guid == o;
      assert s in z'[q].snaps;
      assert Holds(z', q, o);
    }
    var rank :| Ranked(z, rank);
    assert forall c, x :: ClonedFrom(z', c, x) ==> ClonedFrom(z, c, x);
    assert Ranked(z', rank);
  }

  lemma DestroyKeepsWf(z: Pool, d: string)
    requires Wf(z) && CanDestroy(z, d)
    ensures Wf(Destroy(z, d)) && Destroy(z, d).Keys == z.Keys - {d}
  {
    RemoveKeepsWf(z, d);
    if exists q, g :: Reaps(z, d, q, g) {
      forall q, g | Reaps(z, d, q, g) ensures Wf(DropSnap(z - {d}, q, g)) {
        DropSnapKeepsWf(z - {d}, q, g);
      }
    }
  }

  // Mark snapshot g of d for destruction once its last clone is gone.
  function Defer(snaps: seq<Snap>, g: nat): (r: seq<Snap>)
    ensures |r| == |snaps|
    ensures forall i :: 0 <= i < |snaps| ==>
      r[i] == if snaps[i].guid == g then snaps[i].(deferred := true) else snaps[i]
  {
    if snaps == [] then []
    else [if snaps[0].guid == g then snaps[0].(deferred := true) else snaps[0]] + Defer(snaps[1..], g)
  }

  // zfs destroy -d of one snapshot: removed at once unless a clone depends on it.
  function DeleteSnap(z: Pool, d: string, g: nat): Pool
    requires d in z
  {
    if IsOrigin(z, g) then z[d := z[d].(snaps := Defer(z[d].snaps, g))] else DropSnap(z, d, g)
  }

  lemma DeleteSnapKeepsWf(z: Pool, d: string, g: nat)
    requires Wf(z) && d in z
    ensures Wf(DeleteSnap(z, d, g))
  {
    if IsOrigin(z, g) { RewriteKeepsWf(z, d, Defer(z[d].snaps, g)); } else { DropSnapKeepsWf(z, d, g); }
  }

  // ---------------------------------------------------------------- Create and mark

  // Snapshot name of dataset d.
  ghost predicate Named(z: Pool, d: string, name: string) {
    d in z && exists s :: s in z[d].snaps && s.name == name
  }

  function AddSnap(z: Pool, d: string, s: Snap): Pool
    requires d in z
  {
    z[d := z[d].(snaps := z[d].snaps + [s])]
  }

  lemma AddSnapKeepsWf(z: Pool, d: string, s: Snap)
    requires Wf(z) && d in z && !Alive(z, s.guid) && !Named(z, d, s.name)
    ensures Wf(AddSnap(z, d, s))
  {
    var z' := AddSnap(z, d, s);
    forall x, g ensures Holds(z', x, g) <==> Holds(z, x, g) || (x == d && g == s.guid) {
      if Holds(z, x, g) { var t :| t in z[x].snaps && t.guid == g; assert t in z'[x].snaps; }
      if x == d && g == s.guid { assert s in z'[d].snaps; }
    }
    forall i | 0 <= i < |z[d].snaps| ensures z[d].snaps[i].guid != s.guid && z[d].snaps[i].name != s.name {
      assert z[d].snaps[i] in z[d].snaps;
      assert Holds(z, d, z[d].snaps[i].guid);
    }
    forall c | c in z' && z'[c].origin.Some? ensures Alive(z', z'[c].origin.value) {
      assert z'[c].origin == z[c].origin;
      assert Holds(z', Owner(z, z[c].origin.value), z[c].origin.value);
    }
    var rank :| Ranked(z, rank);
    forall c, x | ClonedFrom(z', c, x) ensures ClonedFrom(z, c, x) {
      assert z'[c].origin == z[c].origin;
      assert Alive(z, z[c].origin.value);
    }
    assert Ranked(z', rank);
  }

  // Give snapshot g the snapshot_id property.
  function Mark(snaps: seq<Snap>, g: nat): (r: seq<Snap>)
    ensures |r| == |snaps|
    ensures forall i :: 0 <= i < |snaps| ==>
      r[i] == if snaps[i].guid == g then snaps[i].(csi := true) else snaps[i]
  {
    if snaps == [] then []
    else [if snaps[0].guid == g then snaps[0].(csi := true) else snaps[0]] + Mark(snaps[1..], g)
  }

  // Rewriting a dataset's snapshots in place, identities and order kept, keeps the pool well formed.
  lemma RewriteHolds(z: Pool, d: string, snaps: seq<Snap>, x: string, h: nat)
    requires d in z && |snaps| == |z[d].snaps|
    requires forall i :: 0 <= i < |snaps| ==> snaps[i].guid == z[d].snaps[i].guid
    ensures Holds(z[d := z[d].(snaps := snaps)], x, h) <==> Holds(z, x, h)
  {
    if x == d {
      if t :| t in z[d].snaps && t.guid == h {
        var i :| 0 <= i < |snaps| && z[d].snaps[i] == t;
        assert snaps[i] in snaps;
      }
      if t :| t in snaps && t.guid == h {
        var i :| 0 <= i < |snaps| && snaps[i] == t;
        assert z[d].snaps[i] in z[d].snaps;
      }
    }
  }

  lemma RewriteKeepsWf(z: Pool, d: string, snaps: seq<Snap>)
    requires Wf(z) && d in z && |snaps| == |z[d].snaps|
    requires forall i :: 0 <= i < |snaps| ==> snaps[i].guid == z[d].snaps[i].guid && snaps[i].name == z[d].snaps[i].name
    ensures Wf(z[d := z[d].(snaps := snaps)])
  {
    var z' := z[d := z[d].(snaps := snaps)];
    forall x, h: nat ensures Holds(z', x, h) <==> Holds(z, x, h) { RewriteHolds(z, d, snaps, x, h); }
    assert forall c :: c in z ==> z'[c].origin == z[c].origin;
    forall c | c in z' && z'[c].origin.Some? ensures Alive(z', z'[c].origin.value) {
      assert Holds(z', Owner(z, z[c].origin.value), z[c].origin.value);
    }
    var rank :| Ranked(z, rank);
    assert forall c, x :: ClonedFrom(z', c, x) ==> ClonedFrom(z, c, x);
    assert Ranked(z', rank);
  }

  // ---------------------------------------------------------------- Protection

  // A snapshot the deletion guard protects: created through CSI and not deleted since.
  ghost predicate Protected(z: Pool, d: string, s: Snap) {
    d in z && s in z[d].snaps && s.csi && !s.deferred
  }

  ghost predicate NoneProtectedOn(z: Pool, d: string) {
    forall s :: !Protected(z, d, s)
  }

  // Every protected snapshot stays on its dataset, unchanged.
  ghost predicate KeepsProtected(z: Pool, z': Pool) {
    forall d, s :: Protected(z, d, s) ==> Protected(z', d, s)
  }
}
